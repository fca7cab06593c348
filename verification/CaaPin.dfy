/** The CAA records hlb-api advises to publish, so that the house's accounts alone issue. */
module CaaPin {
  import opened Wrappers
  import opened Sequences
  import opened Text
  import opened CaaRecord
  import opened CaaJudge

  /** The CAA set governing the house's names, and where it was found. */
  datatype Governing = Governing(at: Option<string>, records: seq<string>)

  datatype Reading = Reading(zone: string, governing: Option<Governing>, accounts: seq<Account>)

  datatype PinWhy = NoAuthority | NoAccount

  datatype PinRecord = PinRecord(who: string, wildcard: bool, record: string)

  datatype Pin = Pin(why: PinWhy, at: string, records: seq<PinRecord>)

  // ---- The methods to say again ------------------------------------------------

  function AddNew(kept: seq<string>, ms: seq<string>): seq<string>
    decreases |ms|
  {
    if ms == [] then kept else AddNew(if ms[0] in kept then kept else kept + [ms[0]], ms[1..])
  }

  /** The methods of every `tag` property letting `a` issue, on top of `kept`; `None` when
      one of them allows every method. */
  function Collect(caa: seq<Caa>, tag: string, a: Account, kept: seq<string>): Option<seq<string>> {
    if caa == [] then Some(kept)
    else if caa[0].tag != tag || !Allows(caa[0], a, None) then Collect(caa[1..], tag, a, kept)
    else
      match caa[0].methods
      case None => None
      case Some(ms) => Collect(caa[1..], tag, a, AddNew(kept, ms))
  }

  /** What `KeptMethods` computes. */
  function Kept(caa: seq<Caa>, tag: string, a: Account): Option<seq<string>> {
    var kept := Collect(caa, tag, a, []);
    if kept == Some([]) then None else kept
  }

  method KeptMethods(records: seq<string>, tag: string, a: Account) returns (r: Option<seq<string>>)
    ensures r == Kept(Parsed(records), tag, a)
  {
    var caa := Parsed(records);
    var kept := [];
    for i := 0 to |caa|
      invariant Collect(caa, tag, a, []) == Collect(caa[i..], tag, a, kept)
    {
      assert caa[i..][1..] == caa[i + 1..];
      var c := caa[i];
      if c.tag != tag || !Allows(c, a, None) { continue; }
      if c.methods.None? { return None; }
      kept := PushNew(kept, c.methods.value);
    }
    r := if kept == [] then None else Some(kept);
  }

  method PushNew(kept: seq<string>, ms: seq<string>) returns (all: seq<string>)
    ensures all == AddNew(kept, ms)
  {
    all := kept;
    for j := 0 to |ms|
      invariant AddNew(kept, ms) == AddNew(all, ms[j..])
    {
      assert ms[j..][1..] == ms[j + 1..];
      if ms[j] !in all {
        all := all + [ms[j]];
      }
    }
  }

  // ---- The advice --------------------------------------------------------------

  function WrittenFor(caa: seq<Caa>, tag: string, a: Account): string {
    RecordText(tag, a.issuer, a.uri, Kept(caa, tag, a))
  }

  /** The record `write` makes for `a`, and one for its wildcard where a set governs those. */
  function PinsOf(write: (string, Account) -> string, wildSet: bool, a: Account): seq<PinRecord> {
    [PinRecord(a.who, false, write(ISSUE, a))]
    + (if a.wildcard && wildSet then [PinRecord(a.who, true, write(ISSUE_WILD, a))] else [])
  }

  function PinsFor(write: (string, Account) -> string, wildSet: bool, accounts: seq<Account>): seq<PinRecord> {
    FlatMap(EachPins(write, wildSet), accounts)
  }

  function EachPins(write: (string, Account) -> string, wildSet: bool): Account -> seq<PinRecord> {
    a => PinsOf(write, wildSet, a)
  }

  function Writer(caa: seq<Caa>): (string, Account) -> string {
    (tag, a) => WrittenFor(caa, tag, a)
  }

  predicate WildSet(caa: seq<Caa>) {
    exists c :: c in caa && c.tag == ISSUE_WILD
  }

  function Verdicts(records: seq<string>, accounts: seq<Account>): seq<Verdict> {
    seq(|accounts|, i requires 0 <= i < |accounts| => Judge(records, accounts[i]))
  }

  function Why(verdicts: seq<Verdict>): Option<PinWhy> {
    if verdicts == [] || Refused in verdicts then None
    else if Anyone in verdicts then Some(NoAuthority)
    else if AnyAccount in verdicts then Some(NoAccount)
    else None
  }

  /** What `PinAdvice` computes. */
  function Advised(r: Reading): Option<Pin> {
    match r.governing
    case None => None
    case Some(g) =>
      var caa := Parsed(g.records);
      match Why(Verdicts(g.records, r.accounts))
      case None => None
      case Some(why) =>
        Some(Pin(why, match g.at case None => r.zone case Some(name) => name,
                 PinsFor(Writer(caa), WildSet(caa), r.accounts)))
  }

  method PinAdvice(r: Reading) returns (advice: Option<Pin>)
    ensures advice == Advised(r)
  {
    if r.governing.None? { return None; }
    var g := r.governing.value;
    var why := Why(Verdicts(g.records, r.accounts));
    if why.None? { return None; }
    var records := WritePins(g.records, r.accounts);
    return Some(Pin(why.value, if g.at.None? then r.zone else g.at.value, records));
  }

  method WritePins(records: seq<string>, accounts: seq<Account>) returns (pins: seq<PinRecord>)
    ensures pins == PinsFor(Writer(Parsed(records)), WildSet(Parsed(records)), accounts)
  {
    var wildSet := WildSet(Parsed(records));
    ghost var each := EachPins(Writer(Parsed(records)), wildSet);
    pins := [];
    for i := 0 to |accounts|
      invariant pins == FlatMap(each, accounts[..i])
    {
      FlatMapStep(each, accounts, i);
      var more := WritePinsOf(records, wildSet, accounts[i]);
      pins := pins + more;
    }
    assert accounts[..|accounts|] == accounts;
  }

  method WritePinsOf(records: seq<string>, wildSet: bool, a: Account) returns (pins: seq<PinRecord>)
    ensures pins == PinsOf(Writer(Parsed(records)), wildSet, a)
  {
    var methods := KeptMethods(records, ISSUE, a);
    pins := [PinRecord(a.who, false, RecordText(ISSUE, a.issuer, a.uri, methods))];
    if a.wildcard && wildSet {
      methods := KeptMethods(records, ISSUE_WILD, a);
      pins := pins + [PinRecord(a.who, true, RecordText(ISSUE_WILD, a.issuer, a.uri, methods))];
    }
  }

  // ---- When it is given, and what it holds -------------------------------------

  /** Some account of the reading meets with that verdict, in the standards' words. */
  ghost predicate Meets(r: Reading, verdict: Verdict)
    requires r.governing.Some?
  {
    exists a :: a in r.accounts && RfcVerdict(Parsed(r.governing.value.records), a) == verdict
  }

  /** Advice is given exactly where a set governs the house's names, no account of it is
      refused, and some account is not pinned; it says why, and where the set stands. */
  lemma AdvisedIff(r: Reading)
    ensures Advised(r).Some? <==>
            && r.governing.Some? && !Meets(r, Refused)
            && (exists a :: a in r.accounts && RfcVerdict(Parsed(r.governing.value.records), a) != Pinned)
    ensures Advised(r).Some? ==>
              && (Advised(r).value.why == NoAuthority <==> Meets(r, Anyone))
              && (Advised(r).value.why == NoAccount <==> !Meets(r, Anyone))
              && (r.governing.value.at.None? ==> Advised(r).value.at == r.zone)
              && (r.governing.value.at.Some? ==> r.governing.value.at == Some(Advised(r).value.at))
  {
    if r.governing.Some? {
      var records := r.governing.value.records;
      var verdicts := Verdicts(records, r.accounts);
      forall a | a in r.accounts ensures RfcVerdict(Parsed(records), a) in verdicts {
        var k :| 0 <= k < |r.accounts| && r.accounts[k] == a;
        JudgeMeaning(records, a);
        assert verdicts[k] == Judge(records, a);
      }
      forall v | v in verdicts ensures Meets(r, v) {
        var k :| 0 <= k < |verdicts| && verdicts[k] == v;
        JudgeMeaning(records, r.accounts[k]);
        assert r.accounts[k] in r.accounts;
      }
      EmptyOrNot(verdicts);
    }
  }

  /** Who each record is for: the plain ones, or the wildcard ones. */
  function Whose(pins: seq<PinRecord>, wildcard: bool): seq<string> {
    if pins == [] then []
    else (if pins[0].wildcard == wildcard then [pins[0].who] else []) + Whose(pins[1..], wildcard)
  }

  function WhoAll(accounts: seq<Account>): seq<string> {
    seq(|accounts|, i requires 0 <= i < |accounts| => accounts[i].who)
  }

  function WhoTakeWildcards(accounts: seq<Account>): seq<string> {
    if accounts == [] then []
    else (if accounts[0].wildcard then [accounts[0].who] else []) + WhoTakeWildcards(accounts[1..])
  }

  /** One plain record for each account, in order; and one for each account that takes
      wildcards, in order, where a record of the set is about wildcards alone. */
  lemma AdvisedForEach(r: Reading)
    requires Advised(r).Some?
    ensures var pins := Advised(r).value.records;
            && Whose(pins, false) == WhoAll(r.accounts)
            && Whose(pins, true) ==
               if Governed(Parsed(r.governing.value.records), ISSUE_WILD) then WhoTakeWildcards(r.accounts) else []
  {
    var caa := Parsed(r.governing.value.records);
    PlainPins(Writer(caa), WildSet(caa), r.accounts);
    WildcardPins(Writer(caa), WildSet(caa), r.accounts);
  }

  lemma {:induction false} WhoseConcat(pins: seq<PinRecord>, more: seq<PinRecord>, wildcard: bool)
    ensures Whose(pins + more, wildcard) == Whose(pins, wildcard) + Whose(more, wildcard)
  {
    if pins == [] {
      assert pins + more == more;
    } else {
      assert (pins + more)[1..] == pins[1..] + more;
      WhoseConcat(pins[1..], more, wildcard);
    }
  }

  lemma {:induction false} WhoTakeWildcardsConcat(accounts: seq<Account>, more: seq<Account>)
    ensures WhoTakeWildcards(accounts + more) == WhoTakeWildcards(accounts) + WhoTakeWildcards(more)
  {
    if accounts == [] {
      assert accounts + more == more;
    } else {
      assert (accounts + more)[1..] == accounts[1..] + more;
      WhoTakeWildcardsConcat(accounts[1..], more);
    }
  }

  lemma PinsOfOne(write: (string, Account) -> string, wildSet: bool, a: Account, wildcard: bool)
    ensures Whose(PinsOf(write, wildSet, a), wildcard) == if !wildcard || (wildSet && a.wildcard) then [a.who] else []
  {
    var plain, wild := PinRecord(a.who, false, write(ISSUE, a)), PinRecord(a.who, true, write(ISSUE_WILD, a));
    assert PinsOf(write, wildSet, a) == [plain] + if a.wildcard && wildSet then [wild] else [];
    assert [plain][1..] == [] && [wild][1..] == [];
    WhoseConcat([plain], if a.wildcard && wildSet then [wild] else [], wildcard);
  }

  lemma PinsStep(write: (string, Account) -> string, wildSet: bool, accounts: seq<Account>, wildcard: bool)
    requires accounts != []
    ensures var init, last := accounts[..|accounts| - 1], accounts[|accounts| - 1];
            Whose(PinsFor(write, wildSet, accounts), wildcard)
            == Whose(PinsFor(write, wildSet, init), wildcard)
               + if !wildcard || (wildSet && last.wildcard) then [last.who] else []
  {
    var init, last := accounts[..|accounts| - 1], accounts[|accounts| - 1];
    WhoseConcat(PinsFor(write, wildSet, init), PinsOf(write, wildSet, last), wildcard);
    PinsOfOne(write, wildSet, last, wildcard);
  }

  lemma {:induction false} PlainPins(write: (string, Account) -> string, wildSet: bool, accounts: seq<Account>)
    ensures Whose(PinsFor(write, wildSet, accounts), false) == WhoAll(accounts)
  {
    if accounts != [] {
      PlainPins(write, wildSet, accounts[..|accounts| - 1]);
      PinsStep(write, wildSet, accounts, false);
    }
  }

  lemma {:induction false} WildcardPins(write: (string, Account) -> string, wildSet: bool, accounts: seq<Account>)
    ensures Whose(PinsFor(write, wildSet, accounts), true) == if wildSet then WhoTakeWildcards(accounts) else []
  {
    if accounts != [] {
      var init, last := accounts[..|accounts| - 1], accounts[|accounts| - 1];
      WildcardPins(write, wildSet, init);
      PinsStep(write, wildSet, accounts, true);
      WhoTakeWildcardsConcat(init, [last]);
      assert accounts == init + [last] && [last][1..] == [];
    }
  }

  // ---- What publishing it does -------------------------------------------------

  /** The set once the advice is followed: its records, beside whatever is left of the before
      ones. They stand in place of the `issue` records, and where they speak of wildcards in
      place of the `issuewild` ones. */
  ghost predicate Follows(before: seq<string>, pins: seq<PinRecord>, kept: seq<string>) {
    forall r | r in kept ::
      && r in before
      && (CaaOf(r).Some? ==> CaaOf(r).value.tag != ISSUE)
      && (CaaOf(r).Some? && CaaOf(r).value.tag == ISSUE_WILD ==> !exists p :: p in pins && p.wildcard)
  }

  function Texts(pins: seq<PinRecord>): seq<string> {
    if pins == [] then [] else [pins[0].record] + Texts(pins[1..])
  }

  predicate CleanAccount(a: Account) {
    Clean(a.issuer) && Clean(a.uri)
  }

  /** What is known of a written record read back, for any account and for a clean one. */
  ghost predicate WrittenSays(before: seq<Caa>, tag: string, a: Account, c: Caa) {
    && c.tag == tag && !c.critical
    && Clean(c.issuer) && c.account.Some? && Clean(c.account.value)
    && (CleanAccount(a) ==> c == Caa(false, tag, Lower(a.issuer), Some(a.uri), Kept(before, tag, a)))
  }

  ghost predicate PinsWild(before: seq<Caa>, accounts: seq<Account>) {
    WildSet(before) && exists a :: a in accounts && a.wildcard
  }

  /** The properties of a set that follows the advice, `reading` each written record: under
      `issue` one for each account and nothing else; under `issuewild` likewise where some
      account takes wildcards such a set governs, and otherwise only what was there before. */
  ghost predicate Publishes(before: seq<Caa>, accounts: seq<Account>, published: seq<Caa>,
                            reading: (string, Account) -> Caa)
  {
    && (forall tag, a | Pins(tag) :: WrittenSays(before, tag, a, reading(tag, a)))
    && (forall c | c in published && c.tag == ISSUE :: exists a :: a in accounts && c == reading(ISSUE, a))
    && (forall a | a in accounts :: reading(ISSUE, a) in published)
    && (forall c | c in published && c.tag == ISSUE_WILD ::
          if PinsWild(before, accounts) then exists a :: a in accounts && a.wildcard && c == reading(ISSUE_WILD, a)
          else c in before)
    && (PinsWild(before, accounts) ==> forall a | a in accounts && a.wildcard :: reading(ISSUE_WILD, a) in published)
    && (forall c | c in published && !Pins(c.tag) :: c in before)
  }

  // ---- Every account of the house is pinned, and only those --------------------

  /** What `Kept` says of the properties letting `a` issue, whatever their challenges. */
  ghost predicate Letting(caa: seq<Caa>, tag: string, a: Account, c: Caa) {
    c in caa && c.tag == tag && Allows(c, a, None)
  }

  lemma {:induction false} AddNewMeaning(kept: seq<string>, ms: seq<string>)
    ensures forall m :: m in AddNew(kept, ms) <==> m in kept || m in ms
    decreases |ms|
  {
    if ms != [] {
      AddNewMeaning(if ms[0] in kept then kept else kept + [ms[0]], ms[1..]);
      assert ms == [ms[0]] + ms[1..];
    }
  }

  lemma {:induction false} CollectMeaning(caa: seq<Caa>, tag: string, a: Account, kept: seq<string>)
    ensures Collect(caa, tag, a, kept).None? <==> exists c :: Letting(caa, tag, a, c) && c.methods.None?
    ensures Collect(caa, tag, a, kept).Some? ==>
              forall m :: m in Collect(caa, tag, a, kept).value
                <==> m in kept || exists c :: Letting(caa, tag, a, c) && c.methods.Some? && m in c.methods.value
  {
    if caa != [] {
      assert caa == [caa[0]] + caa[1..];
      assert forall c :: Letting(caa, tag, a, c)
               <==> Letting(caa[1..], tag, a, c) || (c == caa[0] && Letting(caa, tag, a, c));
      if !Letting(caa, tag, a, caa[0]) {
        CollectMeaning(caa[1..], tag, a, kept);
      } else if caa[0].methods.Some? {
        AddNewMeaning(kept, caa[0].methods.value);
        CollectMeaning(caa[1..], tag, a, AddNew(kept, caa[0].methods.value));
      }
    }
  }

  /** A restriction is said again: of properties that let `a` issue by some challenge, the
      methods kept are exactly those any of them allows. */
  lemma KeptMeaning(caa: seq<Caa>, tag: string, a: Account, m: string)
    requires exists c :: Letting(caa, tag, a, c) && c.methods != Some([])
    ensures (Kept(caa, tag, a).None? || m in Kept(caa, tag, a).value)
       <==> exists c :: Letting(caa, tag, a, c) && (c.methods.None? || m in c.methods.value)
  {
    CollectMeaning(caa, tag, a, []);
    var c :| Letting(caa, tag, a, c) && c.methods != Some([]);
    if Collect(caa, tag, a, []).Some? {
      assert c.methods.Some? && c.methods.value[0] in c.methods.value;
      assert c.methods.value[0] in Collect(caa, tag, a, []).value;
    }
  }

  lemma KeptIsClean(caa: seq<Caa>, tag: string, a: Account)
    requires forall c :: c in caa ==> CleanCaa(c)
    ensures Kept(caa, tag, a).Some? ==> Kept(caa, tag, a).value != [] && CleanMethods(Kept(caa, tag, a).value)
  {
    CollectMeaning(caa, tag, a, []);
  }

  /** What was let issue by some of its challenges before still is by what is kept. */
  lemma KeptStillAllows(caa: seq<Caa>, tag: string, a: Account, methods: Option<seq<string>>)
    requires Governed(caa, tag) ==> Allowed(caa, a, tag, methods)
    ensures Kept(caa, tag, a).None? || methods.None?
            || exists m :: m in methods.value && Lower(m) in Kept(caa, tag, a).value
  {
    CollectMeaning(caa, tag, a, []);
    if Kept(caa, tag, a).Some? && methods.Some? {
      if c :| c in caa && c.tag == tag && Allows(c, a, methods) {
        assert Letting(caa, tag, a, c);
        var m :| m in methods.value && Lower(m) in c.methods.value;
        assert Lower(m) in Kept(caa, tag, a).value;
      } else {
        EmptyListsKeepNothing(caa, tag, a);
      }
    }
  }

  lemma EmptyListsKeepNothing(caa: seq<Caa>, tag: string, a: Account)
    requires forall c | Letting(caa, tag, a, c) :: c.methods == Some([])
    ensures Kept(caa, tag, a).None?
  {
    CollectMeaning(caa, tag, a, []);
    var v := Collect(caa, tag, a, []).value;
    EmptyOrNot(v);
  }

  lemma NotRefusedIsAllowed(caa: seq<Caa>, a: Account, tag: string, methods: Option<seq<string>>)
    requires Verdicted(caa, a) != Refused && Requests(caa, a, tag, methods)
    ensures Governed(caa, tag) ==> Allowed(caa, a, tag, methods)
  {
    VerdictMeaning(caa, a);
  }

  lemma PublishedIsNotForbidden(before: seq<Caa>, accounts: seq<Account>, published: seq<Caa>,
                                reading: (string, Account) -> Caa)
    requires Publishes(before, accounts, published, reading) && !Forbidden(before)
    ensures !Forbidden(published)
  {
    forall c | c in published && c.critical ensures c.tag in KNOWN_TAGS {
      assert c in before;
    }
  }

  /** The tag a wildcard of `a` is under once the advice is followed is the one it was under. */
  lemma WildTagStays(before: seq<Caa>, accounts: seq<Account>, published: seq<Caa>, reading: (string, Account) -> Caa,
                     a: Account)
    requires Publishes(before, accounts, published, reading) && a in accounts && a.wildcard
    ensures GoverningTag(published, true) == GoverningTag(before, true)
    ensures GoverningTag(published, true) == ISSUE_WILD ==> PinsWild(before, accounts)
  {
    if PinsWild(before, accounts) {
      assert reading(ISSUE_WILD, a) in published;
    }
  }

  /** A clean account is let issue, under every tag its requests are under, by its own
      record; and by none that names no account. */
  lemma CleanIsPinnedUnder(before: seq<Caa>, accounts: seq<Account>, published: seq<Caa>,
                           reading: (string, Account) -> Caa, a: Account,
                           tag: string, methods: Option<seq<string>>)
    requires Publishes(before, accounts, published, reading) && a in accounts && CleanAccount(a)
    requires Verdicted(before, a) != Refused && Requests(published, a, tag, methods)
    ensures Allowed(published, a, tag, methods) && !AllowedUnnamed(published, a, tag, methods)
  {
    if a.wildcard { WildTagStays(before, accounts, published, reading, a); }
    assert Requests(before, a, tag, methods);
    NotRefusedIsAllowed(before, a, tag, methods);
    KeptStillAllows(before, tag, a, methods);
    assert reading(tag, a) in published && Allows(reading(tag, a), a, methods);
  }

  lemma UncleanIsRefusedUnder(before: seq<Caa>, accounts: seq<Account>, published: seq<Caa>,
                              reading: (string, Account) -> Caa, a: Account,
                              methods: Option<seq<string>>)
    requires Publishes(before, accounts, published, reading) && !CleanAccount(a)
    ensures !Allowed(published, a, ISSUE, methods)
  {
    LowerKeepsOthers(a.issuer, ';');
    forall c | c in published && c.tag == ISSUE ensures !Allows(c, a, methods) {
      var b :| b in accounts && c == reading(ISSUE, b);
    }
  }

  /** Followed, the advice pins every account whose issuer and URI a record can carry, and
      refuses every other: the URI cut short names an account that is nobody's. */
  lemma PublishedVerdict(before: seq<Caa>, accounts: seq<Account>, published: seq<Caa>,
                         reading: (string, Account) -> Caa, a: Account)
    requires Publishes(before, accounts, published, reading) && a in accounts
    requires Verdicted(before, a) != Refused
    ensures Verdicted(published, a) == if CleanAccount(a) then Pinned else Refused
  {
    VerdictMeaning(before, a);
    VerdictMeaning(published, a);
    PublishedIsNotForbidden(before, accounts, published, reading);
    assert reading(ISSUE, a) in published;
    if CleanAccount(a) {
      forall tag, methods | Requests(published, a, tag, methods)
        ensures Allowed(published, a, tag, methods) && !AllowedUnnamed(published, a, tag, methods)
      {
        CleanIsPinnedUnder(before, accounts, published, reading, a, tag, methods);
      }
      assert !RefusedSomewhere(published, a) && !UngovernedSomewhere(published, a) && !UnnamedSomewhere(published, a);
    } else {
      var taken := SomethingIsTaken(a, false);
      UncleanIsRefusedUnder(before, accounts, published, reading, a, taken);
      assert Requests(published, a, ISSUE, taken) && Governed(published, ISSUE);
      assert RefusedSomewhere(published, a);
    }
  }

  /** And it lets nobody else issue: a plain name, and a wildcard too once no `issuewild`
      record of before is left in place. */
  lemma NobodyElseMayIssue(before: seq<Caa>, accounts: seq<Account>, published: seq<Caa>,
                           reading: (string, Account) -> Caa,
                           issuer: string, uri: string, wild: bool, challenge: string)
    requires Publishes(before, accounts, published, reading) && accounts != []
    requires forall a :: a in accounts ==> CleanAccount(a)
    requires wild ==> PinsWild(before, accounts) || !Governed(published, ISSUE_WILD)
    requires MayIssue(published, issuer, uri, wild, challenge)
    ensures exists a :: a in accounts && Lower(a.issuer) == Lower(issuer) && a.uri == uri
  {
    var tag := GoverningTag(published, wild);
    assert accounts[0] in accounts;
    assert reading(ISSUE, accounts[0]) in published;
    assert Governed(published, tag);
    var c :| c in published && c.tag == tag && Permits(c, issuer, uri, challenge);
    if tag == ISSUE {
      var a :| a in accounts && c == reading(ISSUE, a);
    } else {
      var a :| a in accounts && a.wildcard && c == reading(ISSUE_WILD, a);
    }
  }

  // ---- A restriction its owner wrote -------------------------------------------

  lemma {:induction false} KeptOfSame(caa: seq<Caa>, tag: string, a: Account, b: Account, kept: seq<string>)
    requires Lower(a.issuer) == Lower(b.issuer) && a.uri == b.uri
    ensures Collect(caa, tag, a, kept) == Collect(caa, tag, b, kept)
  {
    if caa != [] && (caa[0].tag != tag || !Allows(caa[0], a, None)) {
      KeptOfSame(caa[1..], tag, a, b, kept);
    } else if caa != [] && caa[0].methods.Some? {
      KeptOfSame(caa[1..], tag, a, b, AddNew(kept, caa[0].methods.value));
    }
  }

  /** What `a` may issue under `tag` once the advice is followed. */
  lemma PublishedPermits(before: seq<Caa>, accounts: seq<Account>, published: seq<Caa>,
                         reading: (string, Account) -> Caa, a: Account,
                         tag: string, challenge: string)
    requires Publishes(before, accounts, published, reading) && a in accounts && CleanAccount(a)
    requires forall b :: b in accounts ==> CleanAccount(b)
    requires tag == ISSUE || (tag == ISSUE_WILD && a.wildcard && PinsWild(before, accounts))
    ensures (exists c :: c in published && c.tag == tag && Permits(c, a.issuer, a.uri, challenge))
       <==> Kept(before, tag, a).None? || Lower(challenge) in Kept(before, tag, a).value
  {
    assert reading(tag, a) in published;
    forall c | c in published && c.tag == tag && Permits(c, a.issuer, a.uri, challenge)
      ensures Kept(before, tag, a).None? || Lower(challenge) in Kept(before, tag, a).value
    {
      var b :| b in accounts && c == reading(tag, b);
      KeptOfSame(before, tag, a, b, []);
    }
  }

  /** Under `tag`, `a` is let in by properties that list no challenge at all, and by no other. */
  ghost predicate OnlyEmptyLists(caa: seq<Caa>, tag: string, a: Account) {
    && (exists c :: Letting(caa, tag, a, c))
    && (forall c | Letting(caa, tag, a, c) :: c.methods == Some([]))
  }

  lemma LettingPermits(caa: seq<Caa>, tag: string, a: Account, challenge: string, c: Caa)
    ensures c in caa && c.tag == tag && Permits(c, a.issuer, a.uri, challenge)
       <==> Letting(caa, tag, a, c) && (c.methods.None? || Lower(challenge) in c.methods.value)
  {
  }

  /** Following the advice moves no restriction on the challenges the house's own accounts
      may take, on plain names or on the wildcards they request — but for one: where only
      empty lists let the account in, no challenge was allowed, and every one then is. */
  lemma RestrictionsAreKept(before: seq<Caa>, accounts: seq<Account>, published: seq<Caa>,
                            reading: (string, Account) -> Caa, a: Account, wild: bool, challenge: string)
    requires Publishes(before, accounts, published, reading) && Verdicted(before, a) != Refused
    requires a in accounts && forall b | b in accounts :: CleanAccount(b)
    requires wild ==> a.wildcard
    ensures MayIssue(published, a.issuer, a.uri, wild, challenge)
       <==> MayIssue(before, a.issuer, a.uri, wild, challenge)
            || OnlyEmptyLists(before, GoverningTag(before, wild), a)
  {
    var tag := GoverningTag(before, wild);
    VerdictMeaning(before, a);
    if wild { WildTagStays(before, accounts, published, reading, a); }
    PublishedIsNotForbidden(before, accounts, published, reading);
    PublishedPermits(before, accounts, published, reading, a, tag, challenge);
    assert reading(tag, a) in published;
    assert MayIssue(published, a.issuer, a.uri, wild, challenge)
      <==> Kept(before, tag, a).None? || Lower(challenge) in Kept(before, tag, a).value;
    KeptPermits(before, tag, a, challenge, wild);
  }

  lemma KeptPermits(before: seq<Caa>, tag: string, a: Account, challenge: string, wild: bool)
    requires Verdicted(before, a) != Refused && !Forbidden(before) && (wild ==> a.wildcard)
    requires tag == GoverningTag(before, wild)
    ensures Kept(before, tag, a).None? || Lower(challenge) in Kept(before, tag, a).value
       <==> MayIssue(before, a.issuer, a.uri, wild, challenge) || OnlyEmptyLists(before, tag, a)
  {
    forall c ensures c in before && c.tag == tag && Permits(c, a.issuer, a.uri, challenge)
                <==> Letting(before, tag, a, c) && (c.methods.None? || Lower(challenge) in c.methods.value) {
      LettingPermits(before, tag, a, challenge, c);
    }
    var taken := SomethingIsTaken(a, wild);
    NotRefusedIsAllowed(before, a, tag, taken);
    if c :| Letting(before, tag, a, c) && c.methods != Some([]) {
      KeptMeaning(before, tag, a, Lower(challenge));
    } else {
      EmptyListsKeepNothing(before, tag, a);
      if Governed(before, tag) {
        var c :| c in before && c.tag == tag && Allows(c, a, taken);
        assert Letting(before, tag, a, c);
      }
    }
  }

  // ---- From the advice to the set ----------------------------------------------

  lemma {:induction false} TextsMeaning(pins: seq<PinRecord>, text: string)
    ensures text in Texts(pins) <==> exists p :: p in pins && p.record == text
  {
    if pins != [] {
      TextsMeaning(pins[1..], text);
      assert pins == [pins[0]] + pins[1..];
    }
  }

  lemma WrittenIsRead(before: seq<Caa>, tag: string, a: Account) returns (c: Caa)
    requires Pins(tag) && forall b :: b in before ==> CleanCaa(b)
    ensures CaaOf(WrittenFor(before, tag, a)) == Some(c) && WrittenSays(before, tag, a, c)
  {
    var methods := Kept(before, tag, a);
    WrittenNamesAnAccount(tag, a.issuer, a.uri, methods);
    c := CaaOf(RecordText(tag, a.issuer, a.uri, methods)).value;
    if CleanAccount(a) {
      KeptIsClean(before, tag, a);
      WrittenCleanIsRead(tag, a.issuer, a.uri, methods);
    }
  }

  /** The texts of the advice: one for each account, and one for each wildcard where a set
      governs those. */
  lemma AdvisedTexts(write: (string, Account) -> string, wildSet: bool, accounts: seq<Account>, text: string)
    ensures text in Texts(PinsFor(write, wildSet, accounts))
       <==> exists a :: a in accounts
              && (text == write(ISSUE, a) || (a.wildcard && wildSet && text == write(ISSUE_WILD, a)))
  {
    var pins := PinsFor(write, wildSet, accounts);
    TextsMeaning(pins, text);
    forall p ensures p in pins <==> exists a :: a in accounts && p in PinsOf(write, wildSet, a) {
      FlatMapMeaning(EachPins(write, wildSet), accounts, p);
    }
    if a :| a in accounts && text == write(ISSUE, a) {
      assert PinRecord(a.who, false, text) in PinsOf(write, wildSet, a);
    }
    if a :| a in accounts && a.wildcard && wildSet && text == write(ISSUE_WILD, a) {
      assert PinRecord(a.who, true, text) in PinsOf(write, wildSet, a);
    }
  }

  lemma AdvisedWild(write: (string, Account) -> string, wildSet: bool, accounts: seq<Account>)
    ensures (exists p :: p in PinsFor(write, wildSet, accounts) && p.wildcard)
       <==> wildSet && exists a :: a in accounts && a.wildcard
  {
    var pins := PinsFor(write, wildSet, accounts);
    forall p ensures p in pins <==> exists a :: a in accounts && p in PinsOf(write, wildSet, a) {
      FlatMapMeaning(EachPins(write, wildSet), accounts, p);
    }
    if a :| wildSet && a in accounts && a.wildcard {
      assert PinRecord(a.who, true, write(ISSUE_WILD, a)) in PinsOf(write, wildSet, a);
    }
  }

  /** `read` reads what `write` writes as `reading` says. */
  ghost predicate Reads(before: seq<Caa>, read: string -> Option<Caa>, write: (string, Account) -> string,
                        reading: (string, Account) -> Caa)
  {
    forall tag, a | Pins(tag) ::
      read(write(tag, a)) == Some(reading(tag, a)) && WrittenSays(before, tag, a, reading(tag, a))
  }

  /** A set that follows the advice publishes it, however records are written and read. */
  lemma FollowedIsPublished(read: string -> Option<Caa>, write: (string, Account) -> string,
                            reading: (string, Account) -> Caa, records: seq<string>, kept: seq<string>,
                            accounts: seq<Account>)
    requires Reads(FilterMap(read, records), read, write, reading)
    requires forall r | r in kept :: r in records && (read(r).Some? ==> read(r).value.tag != ISSUE)
    requires forall r | r in kept :: read(r).Some? && read(r).value.tag == ISSUE_WILD ==>
               !PinsWild(FilterMap(read, records), accounts)
    ensures var before := FilterMap(read, records);
            var pins := PinsFor(write, WildSet(before), accounts);
            Publishes(before, accounts, FilterMap(read, Texts(pins) + kept), reading)
  {
    var before := FilterMap(read, records);
    var wildSet := WildSet(before);
    var texts := Texts(PinsFor(write, wildSet, accounts));
    var published := FilterMap(read, texts + kept);
    forall c ensures c in before <==> exists r :: r in records && read(r) == Some(c) {
      FilterMapMeaning(read, records, c);
    }
    forall a | a in accounts
      ensures reading(ISSUE, a) in published
      ensures a.wildcard && wildSet ==> reading(ISSUE_WILD, a) in published
    {
      AdvisedTexts(write, wildSet, accounts, write(ISSUE, a));
      FilterMapMeaning(read, texts + kept, reading(ISSUE, a));
      AdvisedTexts(write, wildSet, accounts, write(ISSUE_WILD, a));
      FilterMapMeaning(read, texts + kept, reading(ISSUE_WILD, a));
    }
    forall c | c in published
      ensures (c in before && c.tag != ISSUE && (c.tag == ISSUE_WILD ==> !PinsWild(before, accounts)))
              || (exists a :: a in accounts
                    && (c == reading(ISSUE, a) || (a.wildcard && wildSet && c == reading(ISSUE_WILD, a))))
    {
      FilterMapMeaning(read, texts + kept, c);
      var r :| r in texts + kept && read(r) == Some(c);
      if r in texts {
        AdvisedTexts(write, wildSet, accounts, r);
      }
    }
  }

  /** The whole way. Advice is given on a reading, its records are published — in place of
      the `issue` records, and of the `issuewild` ones it speaks of — and the set is judged
      again: every account of the house whose issuer and URI a record can carry is pinned. */
  lemma AdvicePins(r: Reading, kept: seq<string>, a: Account)
    requires Advised(r).Some? && Follows(r.governing.value.records, Advised(r).value.records, kept)
    requires a in r.accounts
    ensures Judge(Texts(Advised(r).value.records) + kept, a) == if CleanAccount(a) then Pinned else Refused
  {
    var reading := AdvicePublishes(r, kept);
    var records := r.governing.value.records;
    var published := Texts(Advised(r).value.records) + kept;
    var i :| 0 <= i < |r.accounts| && r.accounts[i] == a;
    assert Verdicts(records, r.accounts)[i] == Judge(records, a);
    PublishedVerdict(Parsed(records), r.accounts, Parsed(published), reading, a);
  }

  lemma AdvicePublishes(r: Reading, kept: seq<string>) returns (reading: (string, Account) -> Caa)
    requires Advised(r).Some? && Follows(r.governing.value.records, Advised(r).value.records, kept)
    ensures Publishes(Parsed(r.governing.value.records), r.accounts,
                      Parsed(Texts(Advised(r).value.records) + kept), reading)
  {
    var records := r.governing.value.records;
    var before := Parsed(records);
    reading := ReadingOf(before);
    forall c | c in before ensures CleanCaa(c) {
      FilterMapMeaning(CaaOf, records, c);
      var text :| text in records && CaaOf(text) == Some(c);
      RecordIsClean(text);
    }
    forall tag, b | Pins(tag)
      ensures CaaOf(Writer(before)(tag, b)) == Some(reading(tag, b)) && WrittenSays(before, tag, b, reading(tag, b))
    {
      var c := WrittenIsRead(before, tag, b);
    }
    AdvisedWild(Writer(before), WildSet(before), r.accounts);
    FollowedIsPublished(CaaOf, Writer(before), reading, records, kept, r.accounts);
  }

  function ReadingOf(before: seq<Caa>): (string, Account) -> Caa {
    (tag, a) => match CaaOf(WrittenFor(before, tag, a)) case Some(c) => c case None => Caa(false, tag, "", None, None)
  }

  /** And nobody else may issue: of a plain name whatever is left in place, of a wildcard
      unless an `issuewild` record is left that the advice did not speak of. */
  lemma AdviceLetsNobodyElse(r: Reading, kept: seq<string>, issuer: string, uri: string, wild: bool, challenge: string)
    requires Advised(r).Some? && Follows(r.governing.value.records, Advised(r).value.records, kept)
    requires forall a | a in r.accounts :: CleanAccount(a)
    requires wild ==> forall c | c in Parsed(kept) :: c.tag != ISSUE_WILD
    requires MayIssue(Parsed(Texts(Advised(r).value.records) + kept), issuer, uri, wild, challenge)
    ensures exists a :: a in r.accounts && Lower(a.issuer) == Lower(issuer) && a.uri == uri
  {
    var reading := AdvicePublishes(r, kept);
    var before := Parsed(r.governing.value.records);
    var texts := Texts(Advised(r).value.records);
    var published := Parsed(texts + kept);
    if wild && Governed(published, ISSUE_WILD) && !PinsWild(before, r.accounts) {
      var c :| c in published && c.tag == ISSUE_WILD;
      WildIsKept(r, kept, c);
      assert false;
    }
    NobodyElseMayIssue(before, r.accounts, published, reading, issuer, uri, wild, challenge);
  }

  lemma WildIsKept(r: Reading, kept: seq<string>, c: Caa)
    requires Advised(r).Some?
    requires !PinsWild(Parsed(r.governing.value.records), r.accounts)
    requires c in Parsed(Texts(Advised(r).value.records) + kept) && c.tag == ISSUE_WILD
    ensures c in Parsed(kept)
  {
    var texts := Texts(Advised(r).value.records);
    forall text | text in texts ensures CaaOf(text) != Some(c) {
      NoWildText(r, text, c);
    }
    FromKept(CaaOf, texts, kept, c);
  }

  lemma FromKept(read: string -> Option<Caa>, texts: seq<string>, kept: seq<string>, c: Caa)
    requires c in FilterMap(read, texts + kept) && forall text | text in texts :: read(text) != Some(c)
    ensures c in FilterMap(read, kept)
  {
    FilterMapMeaning(read, texts + kept, c);
    FilterMapMeaning(read, kept, c);
  }

  lemma NoWildText(r: Reading, text: string, c: Caa)
    requires Advised(r).Some? && text in Texts(Advised(r).value.records) && c.tag == ISSUE_WILD
    requires !PinsWild(Parsed(r.governing.value.records), r.accounts)
    ensures CaaOf(text) != Some(c)
  {
    var before := Parsed(r.governing.value.records);
    AdvisedTexts(Writer(before), WildSet(before), r.accounts, text);
    var a :| a in r.accounts && text == WrittenFor(before, ISSUE, a);
    WrittenNamesAnAccount(ISSUE, a.issuer, a.uri, Kept(before, ISSUE, a));
  }

  /** And the house's own accounts keep the challenges they were allowed, and no other. */
  lemma AdviceKeepsRestrictions(r: Reading, kept: seq<string>, a: Account, wild: bool, challenge: string)
    requires Advised(r).Some? && Follows(r.governing.value.records, Advised(r).value.records, kept)
    requires a in r.accounts && forall b | b in r.accounts :: CleanAccount(b)
    requires wild ==> a.wildcard
    ensures var before := Parsed(r.governing.value.records);
            MayIssue(Parsed(Texts(Advised(r).value.records) + kept), a.issuer, a.uri, wild, challenge)
            <==> MayIssue(before, a.issuer, a.uri, wild, challenge)
                 || OnlyEmptyLists(before, GoverningTag(before, wild), a)
  {
    var reading := AdvicePublishes(r, kept);
    var records := r.governing.value.records;
    var i :| 0 <= i < |r.accounts| && r.accounts[i] == a;
    assert Verdicts(records, r.accounts)[i] == Judge(records, a);
    var published := Parsed(Texts(Advised(r).value.records) + kept);
    RestrictionsAreKept(Parsed(records), r.accounts, published, reading, a, wild, challenge);
  }

  /** Where the advice speaks of no wildcard, the `issuewild` records left in place govern them
      alone, and let nobody they did not; all left, wildcards are as they were; none left, they
      are as plain names are. */
  lemma WildcardsLeftAreLeft(r: Reading, kept: seq<string>, issuer: string, uri: string, challenge: string)
    requires Advised(r).Some? && Follows(r.governing.value.records, Advised(r).value.records, kept)
    requires !PinsWild(Parsed(r.governing.value.records), r.accounts)
    ensures var before, after := Parsed(r.governing.value.records), Parsed(Texts(Advised(r).value.records) + kept);
            if Governed(Parsed(kept), ISSUE_WILD) then
              && (MayIssue(after, issuer, uri, true, challenge)
                  <==> MayIssue(Parsed(kept), issuer, uri, true, challenge))
              && (MayIssue(after, issuer, uri, true, challenge) ==> MayIssue(before, issuer, uri, true, challenge))
              && ((forall c | c in before && c.tag == ISSUE_WILD :: c in Parsed(kept)) ==>
                    (MayIssue(after, issuer, uri, true, challenge) <==> MayIssue(before, issuer, uri, true, challenge)))
            else MayIssue(after, issuer, uri, true, challenge) <==> MayIssue(after, issuer, uri, false, challenge)
  {
    var records, texts := r.governing.value.records, Texts(Advised(r).value.records);
    var before, after, left := Parsed(records), Parsed(texts + kept), Parsed(kept);
    forall c | c in after && c.tag == ISSUE_WILD ensures c in left {
      WildIsKept(r, kept, c);
    }
    forall c | c in left ensures c in after && c in before {
      LeftIsThere(CaaOf, records, texts, kept, c);
    }
    AdvisedIsNotForbidden(r);
    var reading := AdvicePublishes(r, kept);
    PublishedIsNotForbidden(before, r.accounts, after, reading);
    WildSets(before, after, left, issuer, uri, challenge);
  }

  lemma LeftIsThere(read: string -> Option<Caa>, records: seq<string>, texts: seq<string>, kept: seq<string>, c: Caa)
    requires c in FilterMap(read, kept) && forall k | k in kept :: k in records
    ensures c in FilterMap(read, texts + kept) && c in FilterMap(read, records)
  {
    FilterMapMeaning(read, kept, c);
    FilterMapMeaning(read, texts + kept, c);
    FilterMapMeaning(read, records, c);
  }

  lemma AdvisedIsNotForbidden(r: Reading)
    requires Advised(r).Some?
    ensures !Forbidden(Parsed(r.governing.value.records))
  {
    var verdicts := Verdicts(r.governing.value.records, r.accounts);
    assert verdicts[0] in verdicts;
    assert verdicts[0] == Judge(r.governing.value.records, r.accounts[0]);
    VerdictMeaning(Parsed(r.governing.value.records), r.accounts[0]);
  }

  lemma WildSets(before: seq<Caa>, after: seq<Caa>, left: seq<Caa>, issuer: string, uri: string, challenge: string)
    requires !Forbidden(before) && !Forbidden(after)
    requires forall c | c in left :: c in after && c in before
    requires forall c | c in after && c.tag == ISSUE_WILD :: c in left
    ensures Governed(left, ISSUE_WILD) ==>
              && (MayIssue(after, issuer, uri, true, challenge) <==> MayIssue(left, issuer, uri, true, challenge))
              && (MayIssue(left, issuer, uri, true, challenge) ==> MayIssue(before, issuer, uri, true, challenge))
              && ((forall c | c in before && c.tag == ISSUE_WILD :: c in left) ==>
                    (MayIssue(left, issuer, uri, true, challenge) <==> MayIssue(before, issuer, uri, true, challenge)))
    ensures !Governed(left, ISSUE_WILD) ==>
              (MayIssue(after, issuer, uri, true, challenge) <==> MayIssue(after, issuer, uri, false, challenge))
  {
    assert !Forbidden(left);
    if Governed(left, ISSUE_WILD) { assert Governed(after, ISSUE_WILD) && Governed(before, ISSUE_WILD); }
  }

  /** An owner's list of no challenge at all, and an account whose challenges are not known:
      nobody could issue, advice is given, and once it is followed the account may, by any. */
  lemma EmptyListThenEveryChallenge(issuer: string, uri: string, zone: string, challenge: string)
    requires Clean(issuer) && Clean(uri)
    ensures var a := Account("", issuer, uri, false, []);
            var records := [EmptyListText(issuer)];
            var r := Reading(zone, Some(Governing(None, records)), [a]);
            && Judge(records, a) == AnyAccount && Advised(r).Some?
            && OnlyEmptyLists(Parsed(records), ISSUE, a)
            && !MayIssue(Parsed(records), issuer, uri, false, challenge)
            && MayIssue(Parsed(Texts(Advised(r).value.records)), issuer, uri, false, challenge)
  {
    var a := Account("", issuer, uri, false, []);
    var records := [EmptyListText(issuer)];
    var r := Reading(zone, Some(Governing(None, records)), [a]);
    var c := Caa(false, ISSUE, Lower(issuer), None, Some([]));
    EmptyListIsRead(issuer);
    OneParsed(CaaOf, records[0], c);
    OnlyOneEmptyList(c, a, challenge);
    AdviceForOne(r, a);
    AdviceKeepsRestrictions(r, [], a, false, challenge);
    assert Texts(Advised(r).value.records) + [] == Texts(Advised(r).value.records);
  }

  lemma AdviceForOne(r: Reading, a: Account)
    requires r.governing.Some? && r.accounts == [a] && Judge(r.governing.value.records, a) == AnyAccount
    ensures Advised(r).Some?
  {
    assert Verdicts(r.governing.value.records, [a]) == [AnyAccount];
  }

  lemma OneParsed(read: string -> Option<Caa>, text: string, c: Caa)
    requires read(text) == Some(c)
    ensures FilterMap(read, [text]) == [c]
  {
    assert [text][1..] == [];
    assert FilterMap(read, []) == [];
  }

  lemma OnlyOneEmptyList(c: Caa, a: Account, challenge: string)
    requires c == Caa(false, ISSUE, Lower(a.issuer), None, Some([])) && a.validations == [] && !a.wildcard
    ensures Verdicted([c], a) == AnyAccount && OnlyEmptyLists([c], ISSUE, a)
    ensures !MayIssue([c], a.issuer, a.uri, false, challenge)
  {
    VerdictMeaning([c], a);
    assert c in [c] && Letting([c], ISSUE, a, c);
    assert Allowed([c], a, ISSUE, None) && AllowedUnnamed([c], a, ISSUE, None);
    assert Requests([c], a, ISSUE, None);
    assert Governed([c], ISSUE);
  }
}
