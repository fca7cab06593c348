/** An account judged by a set of CAA records as hlb-api does it, against a reading of RFC 8659
    and RFC 8657 by their own words. */
module CaaJudge {
  import opened Wrappers
  import opened Sequences
  import opened Text
  import opened CaaRecord

  /** One kind of certificate, and the challenges any of which may validate it. */
  datatype Validation = Validation(wildcard: bool, methods: seq<string>)

  datatype Account = Account(who: string, issuer: string, uri: string, wildcard: bool, validations: seq<Validation>)

  /** In rising badness. */
  datatype Verdict = Pinned | AnyAccount | Anyone | Refused {
    function Badness(): nat {
      match this
      case Pinned => 0
      case AnyAccount => 1
      case Anyone => 2
      case Refused => 3
    }
  }

  const KNOWN_TAGS := [ISSUE, ISSUE_WILD, "iodef", "issuemail", "issuevmc", "contactemail", "contactphone"]

  /** The records that parse, in order. */
  function Parsed(records: seq<string>): seq<Caa> {
    FilterMap(CaaOf, records)
  }

  /** `Caa::allows`: `None` for methods not known. */
  predicate Allows(c: Caa, a: Account, methods: Option<seq<string>>) {
    && c.issuer == Lower(a.issuer)
    && (c.account.None? || c.account.value == a.uri)
    && (c.methods.None? || methods.None? || exists m :: m in methods.value && Lower(m) in c.methods.value)
  }

  function Under(caa: seq<Caa>, a: Account, check: (string, Option<seq<string>>)): Verdict {
    var (tag, methods) := check;
    if !exists c :: c in caa && c.tag == tag then Anyone
    else if !exists c :: c in caa && c.tag == tag && Allows(c, a, methods) then Refused
    else if exists c :: c in caa && c.tag == tag && Allows(c, a, methods) && c.account.None? then AnyAccount
    else Pinned
  }

  /** The challenges of each kind of certificate, or the one entry standing for those not
      known. */
  function Known(a: Account, wildcardOnly: bool): seq<Option<seq<string>>> {
    var found := Methods(a.validations, wildcardOnly);
    if found == [] then [None] else found
  }

  function Methods(validations: seq<Validation>, wildcardOnly: bool): seq<Option<seq<string>>> {
    if validations == [] then []
    else
      (if validations[0].wildcard || !wildcardOnly then [Some(validations[0].methods)] else [])
      + Methods(validations[1..], wildcardOnly)
  }

  function Checks(caa: seq<Caa>, a: Account): seq<(string, Option<seq<string>>)> {
    var wildTag := if exists c :: c in caa && c.tag == ISSUE_WILD then ISSUE_WILD else ISSUE;
    Tagged(ISSUE, Known(a, false)) + (if a.wildcard then Tagged(wildTag, Known(a, true)) else [])
  }

  function Tagged(tag: string, methods: seq<Option<seq<string>>>): seq<(string, Option<seq<string>>)> {
    if methods == [] then [] else [(tag, methods[0])] + Tagged(tag, methods[1..])
  }

  function Worst(caa: seq<Caa>, a: Account, checks: seq<(string, Option<seq<string>>)>): Verdict {
    if checks == [] then Anyone
    else if |checks| == 1 then Under(caa, a, checks[0])
    else
      var first, rest := Under(caa, a, checks[0]), Worst(caa, a, checks[1..]);
      if first.Badness() > rest.Badness() then first else rest
  }

  /** What the parsed records let `a` do. */
  function Verdicted(caa: seq<Caa>, a: Account): Verdict {
    if exists c :: c in caa && c.critical && c.tag !in KNOWN_TAGS then Refused
    else Worst(caa, a, Checks(caa, a))
  }

  function Judge(records: seq<string>, a: Account): Verdict {
    Verdicted(Parsed(records), a)
  }

  // ---- The standards' words ----------------------------------------------------

  /** Section 4.1 of RFC 8659: a critical property not understood forbids every issuance. */
  ghost predicate Forbidden(caa: seq<Caa>) {
    exists c :: c in caa && c.critical && c.tag !in KNOWN_TAGS
  }

  ghost predicate Governed(caa: seq<Caa>, tag: string) {
    exists c :: c in caa && c.tag == tag
  }

  /** Section 4.3: a wildcard falls under `issue` unless some record is an `issuewild`. */
  ghost function GoverningTag(caa: seq<Caa>, wild: bool): string {
    if wild && Governed(caa, ISSUE_WILD) then ISSUE_WILD else ISSUE
  }

  /** Section 4.2, with sections 3 and 4 of RFC 8657: one property lets this account of this
      authority issue by this challenge. */
  predicate Permits(c: Caa, issuer: string, uri: string, challenge: string) {
    && c.issuer == Lower(issuer)
    && (c.account.None? || c.account.value == uri)
    && (c.methods.None? || Lower(challenge) in c.methods.value)
  }

  /** Section 3: an authority may issue unless a set governs and none of it permits. */
  ghost predicate MayIssue(caa: seq<Caa>, issuer: string, uri: string, wild: bool, challenge: string) {
    && !Forbidden(caa)
    && var tag := GoverningTag(caa, wild);
       Governed(caa, tag) ==> exists c :: c in caa && c.tag == tag && Permits(c, issuer, uri, challenge)
  }

  /** The challenges `a` takes for one kind of certificate: `None` when no kind is known. */
  ghost predicate Takes(a: Account, wildcardOnly: bool, methods: Option<seq<string>>) {
    if exists v :: v in a.validations && (v.wildcard || !wildcardOnly)
    then exists v :: v in a.validations && (v.wildcard || !wildcardOnly) && methods == Some(v.methods)
    else methods.None?
  }

  /** `a` requests a certificate the set of `tag` governs, by one of `methods`. Of a
      wildcard account the plain names are requested too. */
  ghost predicate Requests(caa: seq<Caa>, a: Account, tag: string, methods: Option<seq<string>>) {
    || (tag == ISSUE && Takes(a, false, methods))
    || (a.wildcard && tag == GoverningTag(caa, true) && Takes(a, true, methods))
  }

  ghost predicate Allowed(caa: seq<Caa>, a: Account, tag: string, methods: Option<seq<string>>) {
    exists c :: c in caa && c.tag == tag && Allows(c, a, methods)
  }

  ghost predicate AllowedUnnamed(caa: seq<Caa>, a: Account, tag: string, methods: Option<seq<string>>) {
    exists c :: c in caa && c.tag == tag && Allows(c, a, methods) && c.account.None?
  }

  ghost predicate RefusedSomewhere(caa: seq<Caa>, a: Account) {
    exists tag, methods :: Requests(caa, a, tag, methods) && Governed(caa, tag) && !Allowed(caa, a, tag, methods)
  }

  ghost predicate UngovernedSomewhere(caa: seq<Caa>, a: Account) {
    exists tag, methods :: Requests(caa, a, tag, methods) && !Governed(caa, tag)
  }

  ghost predicate UnnamedSomewhere(caa: seq<Caa>, a: Account) {
    exists tag, methods :: Requests(caa, a, tag, methods) && AllowedUnnamed(caa, a, tag, methods)
  }

  /** The verdict in the standards' words: the worst that any certificate the account
      requests meets with. */
  ghost function RfcVerdict(caa: seq<Caa>, a: Account): Verdict {
    if Forbidden(caa) || RefusedSomewhere(caa, a) then Refused
    else if UngovernedSomewhere(caa, a) then Anyone
    else if UnnamedSomewhere(caa, a) then AnyAccount
    else Pinned
  }

  // ---- The judgement is the standards' -----------------------------------------

  lemma {:induction false} MethodsMeaning(validations: seq<Validation>, wildcardOnly: bool,
                                          methods: Option<seq<string>>)
    ensures methods in Methods(validations, wildcardOnly)
       <==> exists v :: v in validations && (v.wildcard || !wildcardOnly) && methods == Some(v.methods)
  {
    if validations != [] {
      MethodsMeaning(validations[1..], wildcardOnly, methods);
      assert validations == [validations[0]] + validations[1..];
    }
  }

  lemma KnownMeaning(a: Account, wildcardOnly: bool, methods: Option<seq<string>>)
    ensures methods in Known(a, wildcardOnly) <==> Takes(a, wildcardOnly, methods)
  {
    var found := Methods(a.validations, wildcardOnly);
    MethodsMeaning(a.validations, wildcardOnly, methods);
    if found == [] {
      forall v | v in a.validations ensures !(v.wildcard || !wildcardOnly) {
        MethodsMeaning(a.validations, wildcardOnly, Some(v.methods));
      }
    } else {
      MethodsMeaning(a.validations, wildcardOnly, found[0]);
    }
  }

  lemma {:induction false} TaggedMeaning(tag: string, methods: seq<Option<seq<string>>>,
                                         check: (string, Option<seq<string>>))
    ensures check in Tagged(tag, methods) <==> check.0 == tag && check.1 in methods
  {
    if methods != [] {
      TaggedMeaning(tag, methods[1..], check);
      assert methods == [methods[0]] + methods[1..];
    }
  }

  lemma ChecksMeaning(caa: seq<Caa>, a: Account, check: (string, Option<seq<string>>))
    ensures check in Checks(caa, a) <==> Requests(caa, a, check.0, check.1)
  {
    TaggedMeaning(ISSUE, Known(a, false), check);
    TaggedMeaning(GoverningTag(caa, true), Known(a, true), check);
    KnownMeaning(a, false, check.1);
    KnownMeaning(a, true, check.1);
  }

  lemma {:induction false} WorstMeaning(caa: seq<Caa>, a: Account, checks: seq<(string, Option<seq<string>>)>)
    requires checks != []
    ensures exists check :: check in checks && Under(caa, a, check) == Worst(caa, a, checks)
    ensures forall check :: check in checks ==> Under(caa, a, check).Badness() <= Worst(caa, a, checks).Badness()
  {
    if |checks| == 1 {
      assert checks[0] in checks;
    } else {
      WorstMeaning(caa, a, checks[1..]);
      var rest :| rest in checks[1..] && Under(caa, a, rest) == Worst(caa, a, checks[1..]);
      assert checks == [checks[0]] + checks[1..];
      assert checks[0] in checks && rest in checks;
    }
  }

  lemma SomethingIsTaken(a: Account, wildcardOnly: bool) returns (methods: Option<seq<string>>)
    ensures Takes(a, wildcardOnly, methods)
  {
    if v :| v in a.validations && (v.wildcard || !wildcardOnly) {
      methods := Some(v.methods);
    } else {
      methods := None;
    }
  }

  lemma VerdictMeaning(caa: seq<Caa>, a: Account)
    ensures Verdicted(caa, a) == RfcVerdict(caa, a)
  {
    var checks := Checks(caa, a);
    var taken := SomethingIsTaken(a, false);
    ChecksMeaning(caa, a, (ISSUE, taken));
    assert (ISSUE, taken) in checks;
    WorstMeaning(caa, a, checks);
    var worst :| worst in checks && Under(caa, a, worst) == Worst(caa, a, checks);
    ChecksMeaning(caa, a, worst);
    forall tag, methods | Requests(caa, a, tag, methods)
      ensures Under(caa, a, (tag, methods)).Badness() <= Under(caa, a, worst).Badness()
    {
      ChecksMeaning(caa, a, (tag, methods));
    }
    WorstRequest(caa, a, worst.0, worst.1);
  }

  lemma WorstRequest(caa: seq<Caa>, a: Account, tag: string, methods: Option<seq<string>>)
    requires Requests(caa, a, tag, methods)
    requires forall t, m | Requests(caa, a, t, m) ::
      Under(caa, a, (t, m)).Badness() <= Under(caa, a, (tag, methods)).Badness()
    ensures Forbidden(caa) || Under(caa, a, (tag, methods)) == RfcVerdict(caa, a)
  {
    match Under(caa, a, (tag, methods))
    case Refused =>
      assert RefusedSomewhere(caa, a);
    case Anyone =>
      assert UngovernedSomewhere(caa, a);
      assert !RefusedSomewhere(caa, a);
    case AnyAccount =>
      assert UnnamedSomewhere(caa, a);
      assert !RefusedSomewhere(caa, a) && !UngovernedSomewhere(caa, a);
    case Pinned =>
      assert !RefusedSomewhere(caa, a) && !UngovernedSomewhere(caa, a) && !UnnamedSomewhere(caa, a);
  }

  /** Every verdict is the standards', of the records that parse. */
  lemma JudgeMeaning(records: seq<string>, a: Account)
    ensures Judge(records, a) == RfcVerdict(Parsed(records), a)
    ensures forall c :: c in Parsed(records) <==> exists r :: r in records && CaaOf(r) == Some(c)
  {
    VerdictMeaning(Parsed(records), a);
    forall c ensures c in Parsed(records) <==> exists r :: r in records && CaaOf(r) == Some(c) {
      FilterMapMeaning(CaaOf, records, c);
    }
  }

  lemma RfcReadsASet(caa: seq<Caa>, same: seq<Caa>, a: Account)
    requires forall c :: c in caa <==> c in same
    ensures RfcVerdict(caa, a) == RfcVerdict(same, a)
  {
    assert forall tag :: Governed(caa, tag) <==> Governed(same, tag);
    assert forall tag, methods :: Requests(caa, a, tag, methods) <==> Requests(same, a, tag, methods);
    assert forall tag, methods :: Allowed(caa, a, tag, methods) <==> Allowed(same, a, tag, methods);
    assert forall tag, methods :: AllowedUnnamed(caa, a, tag, methods) <==> AllowedUnnamed(same, a, tag, methods);
    assert RefusedSomewhere(caa, a) <==> RefusedSomewhere(same, a);
    assert UngovernedSomewhere(caa, a) <==> UngovernedSomewhere(same, a);
    assert UnnamedSomewhere(caa, a) <==> UnnamedSomewhere(same, a);
  }

  /** The records are a set: their order and their repetitions change no verdict. */
  lemma JudgeReadsASet(records: seq<string>, same: seq<string>, a: Account)
    requires forall r :: r in records <==> r in same
    ensures Judge(records, a) == Judge(same, a)
  {
    JudgeMeaning(records, a);
    JudgeMeaning(same, a);
    RfcReadsASet(Parsed(records), Parsed(same), a);
  }

  /** A record of a tag not known. */
  ghost predicate Unknown(tag: string, text: string, n: nat) {
    Word(tag) && Lower(tag) !in KNOWN_TAGS
    && exists zeros: nat, plus, value :: text == FlagText(n, zeros, plus) + " " + (tag + " " + Quoted(value))
  }

  /** Critical, it refuses whatever stands beside it. */
  lemma UnknownCriticalRefuses(records: seq<string>, a: Account, tag: string, text: string, n: nat)
    requires Unknown(tag, text, n) && 128 <= n <= 255 && text in records
    ensures Judge(records, a) == Refused
  {
    var zeros: nat, plus, value :| text == FlagText(n, zeros, plus) + " " + (tag + " " + Quoted(value));
    FlagsDecide(n, zeros, plus, tag, value);
    FilterMapMeaning(CaaOf, records, CaaOf(text).value);
    assert Forbidden(Parsed(records));
  }

  /** Otherwise it changes nothing, be its flags a byte or not. */
  lemma UnknownElseIsIgnored(records: seq<string>, a: Account, tag: string, text: string, n: nat)
    requires Unknown(tag, text, n) && !(128 <= n <= 255)
    ensures Judge(records + [text], a) == Judge(records, a)
  {
    var zeros: nat, plus, value :| text == FlagText(n, zeros, plus) + " " + (tag + " " + Quoted(value));
    FlagsDecide(n, zeros, plus, tag, value);
    var caa, more := Parsed(records), Parsed(records + [text]);
    forall c ensures c in more <==> c in caa || CaaOf(text) == Some(c) {
      FilterMapMeaning(CaaOf, records, c);
      FilterMapMeaning(CaaOf, records + [text], c);
    }
    VerdictMeaning(caa, a);
    VerdictMeaning(more, a);
    if CaaOf(text).Some? { OtherTagsAreIgnored(caa, more, a); }
    else { RfcReadsASet(caa, more, a); }
  }

  /** What is neither critical nor about issuing decides nothing. */
  lemma OtherTagsAreIgnored(caa: seq<Caa>, more: seq<Caa>, a: Account)
    requires forall c | c in caa :: c in more
    requires forall c | c in more && c !in caa :: !c.critical && c.tag != ISSUE && c.tag != ISSUE_WILD
    ensures RfcVerdict(caa, a) == RfcVerdict(more, a)
  {
    assert Forbidden(caa) <==> Forbidden(more);
    assert GoverningTag(caa, true) == GoverningTag(more, true);
    assert forall tag, methods :: Requests(caa, a, tag, methods) <==> Requests(more, a, tag, methods);
    assert forall tag | tag == ISSUE || tag == ISSUE_WILD :: Governed(caa, tag) <==> Governed(more, tag);
    assert forall tag, methods | tag == ISSUE || tag == ISSUE_WILD ::
        Allowed(caa, a, tag, methods) <==> Allowed(more, a, tag, methods);
    assert forall tag, methods | tag == ISSUE || tag == ISSUE_WILD ::
        AllowedUnnamed(caa, a, tag, methods) <==> AllowedUnnamed(more, a, tag, methods);
    assert RefusedSomewhere(caa, a) <==> RefusedSomewhere(more, a);
    assert UngovernedSomewhere(caa, a) <==> UngovernedSomewhere(more, a);
    assert UnnamedSomewhere(caa, a) <==> UnnamedSomewhere(more, a);
  }

  lemma AllowedIsIssuable(caa: seq<Caa>, a: Account, wild: bool, challenges: seq<string>)
    requires !Forbidden(caa) && challenges != []
    requires Governed(caa, GoverningTag(caa, wild))
    ensures Allowed(caa, a, GoverningTag(caa, wild), Some(challenges))
       <==> exists m :: m in challenges && MayIssue(caa, a.issuer, a.uri, wild, m)
  {
    var tag := GoverningTag(caa, wild);
    if c :| c in caa && c.tag == tag && Allows(c, a, Some(challenges)) {
      var m := if c.methods.None? then challenges[0]
               else var m :| m in challenges && Lower(m) in c.methods.value; m;
      assert m in challenges && Permits(c, a.issuer, a.uri, m);
      assert MayIssue(caa, a.issuer, a.uri, wild, m);
    }
    if m :| m in challenges && MayIssue(caa, a.issuer, a.uri, wild, m) {
      var c :| c in caa && c.tag == tag && Permits(c, a.issuer, a.uri, m);
      assert c in caa && c.tag == tag && Allows(c, a, Some(challenges));
    }
  }

  /** `a` takes certificates of the kind `v`, as a wildcard or not, and no challenge of `v`
      may issue one. */
  ghost predicate NeverIssued(caa: seq<Caa>, a: Account, v: Validation, wild: bool) {
    && v in a.validations && (wild ==> a.wildcard && v.wildcard)
    && Governed(caa, GoverningTag(caa, wild))
    && !exists m :: m in v.methods && MayIssue(caa, a.issuer, a.uri, wild, m)
  }

  /** Where the challenges of every kind of certificate are known, refused is what the
      standards refuse: some kind no challenge of which may be used. */
  lemma RefusedIsNeverIssued(caa: seq<Caa>, a: Account)
    requires a.validations != [] && (a.wildcard ==> exists v :: v in a.validations && v.wildcard)
    requires forall v :: v in a.validations ==> v.methods != []
    ensures Verdicted(caa, a) == Refused
       <==> Forbidden(caa) || exists v, wild :: NeverIssued(caa, a, v, wild)
  {
    VerdictMeaning(caa, a);
    if !Forbidden(caa) {
      if v, wild :| NeverIssued(caa, a, v, wild) {
        NeverIssuedIsRefused(caa, a, v, wild);
      }
      if RefusedSomewhere(caa, a) {
        var v, wild := RefusedIsNeverIssuedFor(caa, a);
      }
    }
  }

  lemma NeverIssuedIsRefused(caa: seq<Caa>, a: Account, v: Validation, wild: bool)
    requires !Forbidden(caa) && NeverIssued(caa, a, v, wild) && v.methods != []
    ensures RefusedSomewhere(caa, a)
  {
    AllowedIsIssuable(caa, a, wild, v.methods);
    assert Takes(a, wild, Some(v.methods));
    assert Requests(caa, a, GoverningTag(caa, wild), Some(v.methods));
  }

  lemma RefusedIsNeverIssuedFor(caa: seq<Caa>, a: Account) returns (v: Validation, wild: bool)
    requires !Forbidden(caa) && RefusedSomewhere(caa, a)
    requires a.validations != [] && (a.wildcard ==> exists v :: v in a.validations && v.wildcard)
    requires forall v :: v in a.validations ==> v.methods != []
    ensures NeverIssued(caa, a, v, wild)
  {
    assert a.validations[0] in a.validations;
    var tag, methods :| Requests(caa, a, tag, methods) && Governed(caa, tag)
                        && !Allowed(caa, a, tag, methods);
    wild := !(tag == ISSUE && Takes(a, false, methods));
    assert Takes(a, wild, methods);
    v :| v in a.validations && (v.wildcard || !wild) && methods == Some(v.methods);
    AllowedIsIssuable(caa, a, wild, v.methods);
  }

  /** `Pinned` speaks for the account's own challenges. An account no record names may still
      issue at an authority, the account's own or another, a plain name or a wildcard, exactly
      when some record of the tag that governs it names that authority, no account, and forbids
      not every challenge. */
  lemma StrangersUnderPinned(caa: seq<Caa>, a: Account, issuer: string, stranger: string, wild: bool)
    requires Verdicted(caa, a) == Pinned && forall c | c in caa :: CleanCaa(c)
    requires forall c | c in caa && c.issuer == Lower(issuer) :: c.account != Some(stranger)
    ensures (exists m :: MayIssue(caa, issuer, stranger, wild, m))
       <==> exists c :: c in caa && c.tag == GoverningTag(caa, wild) && c.issuer == Lower(issuer)
                        && c.account.None? && c.methods != Some([])
  {
    VerdictMeaning(caa, a);
    var taken := SomethingIsTaken(a, false);
    var tag := GoverningTag(caa, wild);
    assert Requests(caa, a, ISSUE, taken);
    assert Governed(caa, ISSUE) && Governed(caa, tag);
    if c :| c in caa && c.tag == tag && c.issuer == Lower(issuer) && c.account.None? && c.methods != Some([]) {
      var m := if c.methods.None? then "" else c.methods.value[0];
      assert c.methods.Some? ==> CleanMethod(m);
      assert Permits(c, issuer, stranger, m);
      assert MayIssue(caa, issuer, stranger, wild, m);
    }
  }

  /** Such a set: one record lets anyone of the authority issue by one challenge, another
      pins an account that takes a different one. */
  lemma StrangerUnderPinned(issuer: string, uri: string, stranger: string)
    requires stranger != uri
    ensures var caa := [Caa(false, ISSUE, Lower(issuer), None, Some(["dns-01"])),
                        Caa(false, ISSUE, Lower(issuer), Some(uri), None)];
            var a := Account("Stalwart", issuer, uri, false, [Validation(false, ["http-01"])]);
            Verdicted(caa, a) == Pinned && MayIssue(caa, issuer, stranger, false, "dns-01")
  {
    var open := Caa(false, ISSUE, Lower(issuer), None, Some(["dns-01"]));
    var pinning := Caa(false, ISSUE, Lower(issuer), Some(uri), None);
    var caa := [open, pinning];
    var v := Validation(false, ["http-01"]);
    var a := Account("Stalwart", issuer, uri, false, [v]);
    VerdictMeaning(caa, a);
    assert v in a.validations && open in caa && pinning in caa;
    LowerFixed("dns-01");
    LowerFixed("http-01");
    assert "http-01" != "dns-01";
    assert "dns-01" in ["dns-01"];
    assert Permits(open, issuer, stranger, "dns-01");
    forall tag, methods | Requests(caa, a, tag, methods)
      ensures Allowed(caa, a, tag, methods) && !AllowedUnnamed(caa, a, tag, methods)
    {
      assert tag == ISSUE && methods == Some(v.methods);
      assert Allows(pinning, a, methods);
      assert !Allows(open, a, methods);
    }
  }

  /** Another: the account is pinned at its authority, and a second authority is listed for
      anyone. */
  lemma AnotherAuthorityUnderPinned(issuer: string, uri: string, other: string, stranger: string, challenge: string)
    requires Lower(other) != Lower(issuer)
    ensures var caa := [Caa(false, ISSUE, Lower(issuer), Some(uri), None), Caa(false, ISSUE, Lower(other), None, None)];
            && Verdicted(caa, Account("", issuer, uri, false, [])) == Pinned
            && MayIssue(caa, other, stranger, false, challenge)
            && (stranger != uri ==> !MayIssue(caa, issuer, stranger, false, challenge))
  {
    var pinning, open := Caa(false, ISSUE, Lower(issuer), Some(uri), None), Caa(false, ISSUE, Lower(other), None, None);
    var caa := [pinning, open];
    var a := Account("", issuer, uri, false, []);
    VerdictMeaning(caa, a);
    assert pinning in caa && open in caa;
    assert Permits(open, other, stranger, challenge);
    forall tag, methods | Requests(caa, a, tag, methods)
      ensures Allowed(caa, a, tag, methods) && !AllowedUnnamed(caa, a, tag, methods)
    {
      assert tag == ISSUE && Allows(pinning, a, methods) && !Allows(open, a, methods);
    }
    assert Governed(caa, ISSUE);
  }
}
