/** One CAA record: as a resolver answers it, and as pin advice writes it (sections 4.1
    and 4.2 of RFC 8659, sections 3 and 4 of RFC 8657). */
module CaaRecord {
  import opened Wrappers
  import opened Text

  const ISSUE := "issue"
  const ISSUE_WILD := "issuewild"

  datatype Caa = Caa(
    critical: bool,
    tag: string,
    /** In small letters; nothing, for a lone `;`: no authority at all. */
    issuer: string,
    account: Option<string>,
    /** The challenges listed, in small letters; `None`: no list, and any will do. */
    methods: Option<seq<string>>)

  function Digits(s: string): Option<nat> {
    if s == [] || !('0' <= s[|s| - 1] <= '9') then None
    else
      var last := s[|s| - 1] as int - '0' as int;
      if |s| == 1 then Some(last)
      else
        match Digits(s[..|s| - 1])
        case None => None
        case Some(n) => Some(n * 10 + last)
  }

  /** A `u8` as the standard library parses one: a plus sign and leading zeros are taken. */
  function Flags(s: string): Option<nat> {
    match Digits(if s != [] && s[0] == '+' then s[1..] else s)
    case None => None
    case Some(n) => if n <= 255 then Some(n) else None
  }

  function Unquote(v: string): string {
    if |v| >= 2 && v[0] == '"' && v[|v| - 1] == '"' then v[1..|v| - 1] else v
  }

  /** The challenges a `validationmethods` lists. */
  function MethodList(v: string): seq<string> {
    NonEmpty(Split(v, ','))
  }

  function NonEmpty(parts: seq<string>): seq<string> {
    if parts == [] then []
    else (if Trim(parts[0]) == [] then [] else [Lower(Trim(parts[0]))]) + NonEmpty(parts[1..])
  }

  /** What the parameters say, each read over what those before it said. */
  function Parameters(fields: seq<string>, said: (Option<string>, Option<seq<string>>))
    : (Option<string>, Option<seq<string>>)
  {
    if fields == [] then said else Parameters(fields[1..], Parameter(fields[0], said))
  }

  const ACCOUNT_URI := "accounturi"
  const VALIDATION_METHODS := "validationmethods"

  function Parameter(field: string, said: (Option<string>, Option<seq<string>>))
    : (Option<string>, Option<seq<string>>)
  {
    match SplitOnce(field, '=')
    case None => said
    case Some((k, v)) => Named(Lower(Trim(k)), v, said)
  }

  function Named(name: string, v: string, said: (Option<string>, Option<seq<string>>))
    : (Option<string>, Option<seq<string>>)
  {
    if name == ACCOUNT_URI then (Some(Trim(v)), said.1)
    else if name == VALIDATION_METHODS then (said.0, Some(MethodList(v)))
    else said
  }

  function OfValue(critical: bool, tag: string, value: string): Caa {
    OfFields(critical, tag, Split(value, ';'))
  }

  function OfFields(critical: bool, tag: string, fields: seq<string>): Caa
    requires fields != []
  {
    var said := Parameters(fields[1..], (None, None));
    Caa(critical, tag, Lower(Trim(fields[0])), said.0, said.1)
  }

  function TagAndValue(critical: bool, rest: string): Caa {
    var j := FirstSpace(rest);
    var value := if j == |rest| then "" else Trim(rest[j + 1..]);
    OfValue(critical, Lower(rest[..j]), Unquote(value))
  }

  /** What `Parse` computes. */
  function CaaOf(record: string): Option<Caa> {
    var r := Trim(record);
    var i := FirstSpace(r);
    match Flags(r[..i])
    case None => None
    case Some(flags) => if i == |r| then None else Some(TagAndValue(flags >= 0x80, r[i + 1..]))
  }

  /** The parameters of a value, each over what those before it said. */
  method ReadParameters(fields: seq<string>) returns (account: Option<string>, methods: Option<seq<string>>)
    requires fields != []
    ensures (account, methods) == Parameters(fields[1..], (None, None))
  {
    account, methods := None, None;
    for n := 1 to |fields|
      invariant Parameters(fields[1..], (None, None)) == Parameters(fields[n..], (account, methods))
    {
      assert fields[n..][1..] == fields[n + 1..];
      var field := SplitOnce(fields[n], '=');
      if field.None? { continue; }
      var (k, v) := field.value;
      var name := Lower(Trim(k));
      if name == ACCOUNT_URI {
        account := Some(Trim(v));
      } else if name == VALIDATION_METHODS {
        methods := Some(MethodList(v));
      }
    }
  }

  /** Flags, tag and value; nothing when the flags are no byte or stand alone. */
  method Parse(record: string) returns (c: Option<Caa>)
    ensures c == CaaOf(record)
  {
    var r := Trim(record);
    var i := FirstSpace(r);
    var flags := Flags(r[..i]);
    if flags.None? || i == |r| { return None; }
    var read := ParseRest(flags.value >= 0x80, r[i + 1..]);
    return Some(read);
  }

  /** What follows the flags. */
  method ParseRest(critical: bool, rest: string) returns (c: Caa)
    ensures c == TagAndValue(critical, rest)
  {
    var j := FirstSpace(rest);
    var value := Unquote(if j == |rest| then "" else Trim(rest[j + 1..]));
    var fields := Split(value, ';');
    var account, methods := ReadParameters(fields);
    return Caa(critical, Lower(rest[..j]), Lower(Trim(fields[0])), account, methods);
  }

  // ---- What a parsed record holds ----------------------------------------------

  /** An issuer or account URI a record can carry whole. */
  predicate Clean(s: string) {
    Trimmed(s) && ';' !in s
  }

  predicate CleanMethod(m: string) {
    m != [] && Trimmed(m) && Lower(m) == m && ',' !in m && ';' !in m
  }

  predicate CleanMethods(ms: seq<string>) {
    forall m :: m in ms ==> CleanMethod(m)
  }

  predicate CleanParameters(said: (Option<string>, Option<seq<string>>)) {
    && (said.0.Some? ==> Clean(said.0.value))
    && (said.1.Some? ==> CleanMethods(said.1.value))
  }

  lemma {:induction false} NonEmptyIsClean(parts: seq<string>)
    requires forall p :: p in parts ==> ',' !in p && ';' !in p
    ensures CleanMethods(NonEmpty(parts))
  {
    if parts != [] {
      NonEmptyIsClean(parts[1..]);
      var p := Trim(parts[0]);
      TrimIsTrimmed(parts[0]);
      LowerTwice(p);
      LowerKeepsOthers(p, ',');
      LowerKeepsOthers(p, ';');
    }
  }

  lemma ParameterIsClean(field: string, said: (Option<string>, Option<seq<string>>))
    requires CleanParameters(said) && ';' !in field
    ensures CleanParameters(Parameter(field, said))
    ensures said.0.Some? ==> Parameter(field, said).0.Some?
  {
    var kv := SplitOnce(field, '=');
    if kv.Some? {
      var v := kv.value.1;
      SplitOnceChars(field, '=');
      assert ';' !in v;
      TrimIsTrimmed(v);
      SplitParts(v, ',');
      assert forall p :: p in Split(v, ',') ==> ';' in p ==> ';' in v;
      NonEmptyIsClean(Split(v, ','));
    }
  }

  lemma {:induction false} ParametersAreClean(fields: seq<string>, said: (Option<string>, Option<seq<string>>))
    requires CleanParameters(said) && forall f :: f in fields ==> ';' !in f
    ensures CleanParameters(Parameters(fields, said))
    ensures said.0.Some? ==> Parameters(fields, said).0.Some?
  {
    if fields != [] {
      ParameterIsClean(fields[0], said);
      ParametersAreClean(fields[1..], Parameter(fields[0], said));
    }
  }

  /** Whatever a record says, what is read of it is trimmed and holds no separator. */
  lemma ValueIsClean(critical: bool, tag: string, value: string)
    ensures CleanCaa(OfValue(critical, tag, value))
  {
    var fields := Split(value, ';');
    SplitParts(value, ';');
    ParametersAreClean(fields[1..], (None, None));
    var issuer := Trim(fields[0]);
    TrimIsTrimmed(fields[0]);
    assert fields[0] in fields;
    LowerKeepsOthers(issuer, ';');
    LowerTwice(issuer);
  }

  ghost predicate CleanCaa(c: Caa) {
    Clean(c.issuer) && Lower(c.issuer) == c.issuer && CleanParameters((c.account, c.methods))
  }

  lemma TagAndValueAreClean(critical: bool, rest: string)
    ensures CleanCaa(TagAndValue(critical, rest))
  {
    var tag, value := TagAndValueIs(critical, rest);
    ValueIsClean(critical, tag, value);
  }

  lemma TagAndValueIs(critical: bool, rest: string) returns (tag: string, value: string)
    ensures TagAndValue(critical, rest) == OfValue(critical, tag, value)
  {
    var j := FirstSpace(rest);
    tag, value := Lower(rest[..j]), Unquote(if j == |rest| then "" else Trim(rest[j + 1..]));
  }

  lemma RecordIsClean(record: string)
    requires CaaOf(record).Some?
    ensures CleanCaa(CaaOf(record).value)
  {
    TagAndValueAreClean(CaaOf(record).value.critical, Trim(record)[FirstSpace(Trim(record)) + 1..]);
  }

  // ---- What pin advice writes --------------------------------------------------

  /** ` name=value`, as a parameter follows the separator before it. */
  function FieldText(name: string, value: string): string {
    " " + name + ['='] + value
  }

  function ValueText(issuer: string, uri: string, methods: Option<seq<string>>): string {
    issuer + [';'] + FieldText(ACCOUNT_URI, uri + MethodsText(methods))
  }

  function MethodsText(methods: Option<seq<string>>): string {
    match methods
    case None => ""
    case Some(ms) => [';'] + FieldText(VALIDATION_METHODS, Join(ms, ','))
  }

  /** `0 issue "letsencrypt.org; accounturi=…; validationmethods=…"`. */
  function RecordText(tag: string, issuer: string, uri: string, methods: Option<seq<string>>): string {
    "0" + " " + (tag + " " + Quoted(ValueText(issuer, uri, methods)))
  }

  function Quoted(value: string): string {
    ['"'] + value + ['"']
  }

  lemma QuotedIsRead(value: string)
    ensures Trimmed(Quoted(value)) && Trim(Quoted(value)) == Quoted(value) && Unquote(Quoted(value)) == value
  {
    var q := Quoted(value);
    assert q[0] == '"' && q[|q| - 1] == '"';
    TrimTrimmed(q);
    assert q[1..|q| - 1] == value;
  }

  lemma TagAndValueAreRead(critical: bool, tag: string, value: string)
    requires Word(tag)
    ensures TagAndValue(critical, tag + " " + Quoted(value)) == OfValue(critical, Lower(tag), value)
  {
    var quoted := Quoted(value);
    QuotedIsRead(value);
    FirstSpaceAt(tag, quoted);
    var rest := tag + " " + quoted;
    assert rest[..|tag|] == tag && rest[|tag| + 1..] == quoted;
  }

  lemma FlagsAreRead(flags: string, rest: string)
    requires flags != [] && Word(flags)
    requires rest != [] && !Space(rest[|rest| - 1])
    ensures CaaOf(flags + " " + rest) ==
            match Flags(flags) case None => None case Some(f) => Some(TagAndValue(f >= 0x80, rest))
  {
    var text := flags + " " + rest;
    assert text[0] == flags[0] && text[|text| - 1] == rest[|rest| - 1];
    TrimTrimmed(text);
    FirstSpaceAt(flags, rest);
    assert text[..|flags|] == flags && text[|flags| + 1..] == rest;
  }

  /** A value that is not between two quotes says the same without them. */
  lemma BareIsRead(critical: bool, tag: string, value: string)
    requires Word(tag) && value != [] && Trimmed(value) && !(|value| >= 2 && value[0] == value[|value| - 1] == '"')
    ensures TagAndValue(critical, tag + " " + value) == OfValue(critical, Lower(tag), value)
  {
    FirstSpaceAt(tag, value);
    TrimTrimmed(value);
    var rest := tag + " " + value;
    assert rest[..|tag|] == tag && rest[|tag| + 1..] == value;
  }

  predicate AllSpaces(s: string) {
    forall c | c in s :: Space(c)
  }

  lemma {:induction false} TrimBetween(before: string, name: string, after: string)
    requires AllSpaces(before) && AllSpaces(after) && name != [] && Trimmed(name)
    ensures Trim(before + name + after) == name
    decreases |before| + |after|
  {
    var s := before + name + after;
    if before != [] {
      assert s[0] == before[0] && before[0] in before && s[1..] == before[1..] + name + after;
      TrimBetween(before[1..], name, after);
    } else {
      assert s == name + after && TrimStart(s) == s;
      TrimEndOf(name, after);
    }
  }

  lemma {:induction false} TrimEndOf(name: string, after: string)
    requires AllSpaces(after) && name != [] && Trimmed(name)
    ensures TrimEnd(name + after) == name
    decreases |after|
  {
    if after == [] {
      assert name + after == name;
    } else {
      var n := |after| - 1;
      assert after[n] in after && (name + after)[..|name + after| - 1] == name + after[..n];
      TrimEndOf(name, after[..n]);
    }
  }

  /** A parameter's name is read in any case, with spaces about it; the last of a name is the
      one that counts, and one of another name says nothing. */
  lemma LastParameterCounts(fields: seq<string>, before: string, name: string, after: string, value: string,
                            said: (Option<string>, Option<seq<string>>))
    requires AllSpaces(before) && AllSpaces(after) && name != [] && Trimmed(name) && '=' !in name
    ensures var earlier := Parameters(fields, said);
            Parameters(fields + [before + name + after + ['='] + value], said)
            == if Lower(name) == ACCOUNT_URI then (Some(Trim(value)), earlier.1)
               else if Lower(name) == VALIDATION_METHODS then (earlier.0, Some(MethodList(value)))
               else earlier
  {
    var key := before + name + after;
    var field := key + ['='] + value;
    assert !Space('=') && '=' !in key;
    SplitOnceAt(key, '=', value);
    TrimBetween(before, name, after);
    ParametersConcat(fields, [field], said);
    assert [field][1..] == [];
  }

  /** The challenges listed: what stands between commas, in small letters, but for blanks. */
  lemma ListedMeaning(parts: seq<string>, m: string)
    requires forall p | p in parts :: ',' !in p
    ensures parts != [] ==>
              (m in MethodList(Join(parts, ',')) <==> exists p :: p in parts && Trim(p) != [] && m == Lower(Trim(p)))
  {
    if parts != [] { SplitJoin(parts, ','); }
    NonEmptyMeaning(parts, m);
  }

  lemma {:induction false} NonEmptyMeaning(parts: seq<string>, m: string)
    ensures m in NonEmpty(parts) <==> exists p :: p in parts && Trim(p) != [] && m == Lower(Trim(p))
  {
    if parts != [] {
      NonEmptyMeaning(parts[1..], m);
      assert parts == [parts[0]] + parts[1..];
    }
  }

  /** What is no parameter says nothing. */
  lemma NoParameter(fields: seq<string>, field: string, said: (Option<string>, Option<seq<string>>))
    requires '=' !in field
    ensures Parameters(fields + [field], said) == Parameters(fields, said)
  {
    NoneToSplit(field);
    ParametersConcat(fields, [field], said);
    assert [field][1..] == [];
  }

  lemma {:induction false} NoneToSplit(field: string)
    requires '=' !in field
    ensures SplitOnce(field, '=') == None
  {
    if field != [] {
      assert field[0] in field;
      NoneToSplit(field[1..]);
    }
  }

  // ---- Flags -------------------------------------------------------------------

  function Decimal(n: nat): (s: string)
    ensures s != []
  {
    (if n < 10 then [] else Decimal(n / 10)) + [DigitChar(n % 10)]
  }

  function DigitChar(d: nat): (c: char)
    requires d < 10
    ensures c as int == '0' as int + d
  {
    "0123456789"[d]
  }

  lemma OneMoreIsRead(s: string, d: nat)
    requires d < 10 && (s == [] || Digits(s).Some?)
    ensures Digits(s + [DigitChar(d)]) == Some((if s == [] then 0 else Digits(s).value * 10) + d)
  {
    assert (s + [DigitChar(d)])[..|s|] == s;
  }

  function Zeros(k: nat): string {
    seq(k, _ => '0')
  }

  /** A number as any resolver may write it. */
  function FlagText(n: nat, zeros: nat, plus: bool): string {
    (if plus then "+" else "") + (Zeros(zeros) + Decimal(n))
  }

  lemma {:induction false} DecimalIsRead(n: nat, zeros: nat)
    ensures Digits(Zeros(zeros) + Decimal(n)) == Some(n)
  {
    var init := Zeros(zeros) + if n < 10 then [] else Decimal(n / 10);
    assert Zeros(zeros) + Decimal(n) == init + [DigitChar(n % 10)];
    if n >= 10 {
      DecimalIsRead(n / 10, zeros);
    } else {
      assert init == Zeros(zeros);
      ZerosAreRead(zeros);
    }
    OneMoreIsRead(init, n % 10);
  }

  lemma {:induction false} ZerosAreRead(k: nat)
    ensures Digits(Zeros(k)) == if k == 0 then None else Some(0)
  {
    if k > 1 {
      ZerosAreRead(k - 1);
      assert Zeros(k)[..k - 1] == Zeros(k - 1);
    }
  }

  /** Nothing else is read as that number. */
  lemma {:induction false} OnlyDecimalIsRead(s: string) returns (zeros: nat)
    requires Digits(s).Some?
    ensures s == Zeros(zeros) + Decimal(Digits(s).value)
    decreases |s|
  {
    var init, last := s[..|s| - 1], s[|s| - 1] as nat - '0' as nat;
    assert s == init + [s[|s| - 1]];
    if |s| == 1 {
      zeros := 0;
      assert s == Zeros(0) + Decimal(last);
    } else {
      zeros := OnlyDecimalIsRead(init);
      zeros := OneMoreDigit(zeros, Digits(init).value, last);
    }
  }

  lemma OneMoreDigit(zeros: nat, m: nat, d: nat) returns (more: nat)
    requires d < 10
    ensures Zeros(zeros) + Decimal(m) + [('0' as nat + d) as char] == Zeros(more) + Decimal(10 * m + d)
  {
    var digit := [DigitChar(d)];
    assert digit == [('0' as nat + d) as char] && (10 * m + d) % 10 == d && (10 * m + d) / 10 == m;
    if m == 0 {
      more := zeros + 1;
      assert Decimal(0) == "0" && Decimal(d) == digit;
      assert Zeros(zeros) + "0" == Zeros(zeros + 1);
    } else {
      more := zeros;
      assert Decimal(10 * m + d) == Decimal(m) + digit;
      assert Zeros(zeros) + Decimal(m) + digit == Zeros(zeros) + (Decimal(m) + digit);
    }
  }

  lemma {:induction false} DigitsOnly(s: string)
    requires forall i | 0 <= i < |s| :: s[i] == '+' || '0' <= s[i] <= '9'
    ensures Word(s)
  {
    if s != [] {
      assert forall i | 0 <= i < |s[1..]| :: s[1..][i] == s[i + 1];
      DigitsOnly(s[1..]);
    }
  }

  lemma {:induction false} DecimalDigits(n: nat)
    ensures forall i | 0 <= i < |Decimal(n)| :: '0' <= Decimal(n)[i] <= '9'
  {
    if n >= 10 { DecimalDigits(n / 10); }
  }

  /** Flags are a number up to 255 in decimal, after any zeros and a plus sign or none. */
  lemma FlagsIff(s: string, n: nat)
    ensures Flags(s) == Some(n) <==> n <= 255 && exists zeros: nat, plus :: s == FlagText(n, zeros, plus)
  {
    if Flags(s) == Some(n) {
      var zeros, plus := OnlyFlagsAreRead(s);
    }
    if zeros: nat, plus :| s == FlagText(n, zeros, plus) {
      FlagTextIsRead(n, zeros, plus);
    }
  }

  lemma OnlyFlagsAreRead(s: string) returns (zeros: nat, plus: bool)
    requires Flags(s).Some?
    ensures s == FlagText(Flags(s).value, zeros, plus)
  {
    plus := s != [] && s[0] == '+';
    if plus {
      zeros := OnlyDecimalIsRead(s[1..]);
      assert s == "+" + s[1..];
    } else {
      zeros := OnlyDecimalIsRead(s);
      assert s == "" + s;
    }
  }

  lemma FlagTextIsRead(n: nat, zeros: nat, plus: bool)
    ensures Word(FlagText(n, zeros, plus))
    ensures Flags(FlagText(n, zeros, plus)) == if n <= 255 then Some(n) else None
  {
    var digits := Zeros(zeros) + Decimal(n);
    NoSign(n, zeros);
    DecimalIsRead(n, zeros);
    DigitsOnly(FlagText(n, zeros, plus));
    if plus { assert FlagText(n, zeros, plus)[1..] == digits; } else { assert FlagText(n, zeros, plus) == digits; }
  }

  lemma NoSign(n: nat, zeros: nat)
    ensures var digits := Zeros(zeros) + Decimal(n);
            digits != [] && digits[0] != '+' && forall i | 0 <= i < |digits| :: '0' <= digits[i] <= '9'
  {
    DecimalDigits(n);
  }

  /** A record is read exactly when its flags are a byte, and is critical exactly when that
      byte is 128 or more. */
  lemma FlagsDecide(n: nat, zeros: nat, plus: bool, tag: string, value: string)
    requires Word(tag)
    ensures var c := CaaOf(FlagText(n, zeros, plus) + " " + (tag + " " + Quoted(value)));
            && (c.Some? <==> n <= 255)
            && (c.Some? ==> (c.value.critical <==> n >= 128)
                            && c.value == OfValue(n >= 128, Lower(tag), value))
  {
    FlagTextIsRead(n, zeros, plus);
    var rest := tag + " " + Quoted(value);
    assert rest[|rest| - 1] == '"';
    FlagsAreRead(FlagText(n, zeros, plus), rest);
    TagAndValueAreRead(n >= 128, tag, value);
  }

  /** The tags pin advice writes. */
  predicate Pins(tag: string) {
    tag == ISSUE || tag == ISSUE_WILD
  }

  lemma EnvelopeOfValue(tag: string, value: string)
    requires Pins(tag)
    ensures CaaOf("0" + " " + (tag + " " + Quoted(value))) == Some(OfValue(false, tag, value))
  {
    assert Flags("0") == Some(0) && Word("0");
    LowerFixed(tag);
    var rest := tag + " " + Quoted(value);
    assert rest[|rest| - 1] == '"';
    FlagsAreRead("0", rest);
    TagsAreWords(tag);
    TagAndValueAreRead(false, tag, value);
  }

  lemma TagsAreWords(tag: string)
    requires Pins(tag)
    ensures Word(tag) && Lower(tag) == tag
  {
    assert forall i :: 0 <= i < |tag| ==> 'a' <= tag[i] <= 'z';
    LettersAreAWord(tag);
  }

  lemma {:induction false} LettersAreAWord(s: string)
    requires forall i :: 0 <= i < |s| ==> 'a' <= s[i] <= 'z'
    ensures Word(s) && Lower(s) == s
  {
    if s != [] {
      assert forall i :: 0 <= i < |s[1..]| ==> s[1..][i] == s[i + 1];
      LettersAreAWord(s[1..]);
    }
  }

  /** The quoted value comes out of a written record whole, whatever is in it. */
  lemma EnvelopeIsRead(tag: string, issuer: string, uri: string, methods: Option<seq<string>>)
    requires Pins(tag)
    ensures CaaOf(RecordText(tag, issuer, uri, methods)) == Some(OfValue(false, tag, ValueText(issuer, uri, methods)))
  {
    EnvelopeOfValue(tag, ValueText(issuer, uri, methods));
  }

  lemma FieldIsRead(name: string, value: string, said: (Option<string>, Option<seq<string>>))
    requires Trimmed(name) && '=' !in name && Lower(name) == name
    ensures Parameter(FieldText(name, value), said) == Named(name, value, said)
  {
    SplitOnceAt(" " + name, '=', value);
    TrimAfterSpace(name);
  }

  lemma NamesAreRead()
    ensures Trimmed(ACCOUNT_URI) && '=' !in ACCOUNT_URI && ';' !in ACCOUNT_URI && Lower(ACCOUNT_URI) == ACCOUNT_URI
    ensures ACCOUNT_URI != VALIDATION_METHODS
    ensures Trimmed(VALIDATION_METHODS) && '=' !in VALIDATION_METHODS && ';' !in VALIDATION_METHODS
    ensures Lower(VALIDATION_METHODS) == VALIDATION_METHODS
  {
    LowerFixed(ACCOUNT_URI);
    LowerFixed(VALIDATION_METHODS);
    assert |ACCOUNT_URI| == 10 && |VALIDATION_METHODS| == 17;
  }

  lemma MethodsAreRead(ms: seq<string>)
    requires ms != [] && CleanMethods(ms)
    ensures MethodList(Join(ms, ',')) == ms && ';' !in Join(ms, ',')
  {
    SplitJoin(ms, ',');
    NonEmptyOfClean(ms);
    JoinChars(ms, ',', ';');
  }

  lemma {:induction false} NonEmptyOfClean(ms: seq<string>)
    requires CleanMethods(ms)
    ensures NonEmpty(ms) == ms
  {
    if ms != [] {
      assert CleanMethod(ms[0]);
      TrimTrimmed(ms[0]);
      NonEmptyOfClean(ms[1..]);
    }
  }

  lemma ThreeParts(a: string, b: string, c: string)
    requires ';' !in a && ';' !in b && ';' !in c
    ensures Split(a + [';'] + b, ';') == [a, b]
    ensures Split(a + [';'] + (b + [';'] + c), ';') == [a, b, c]
  {
    SplitOf(a, ';');
    SplitOf(b, ';');
    SplitOf(c, ';');
    SplitAt(b, ';', c);
    SplitAt(a, ';', b);
    SplitAt(a, ';', b + [';'] + c);
  }

  lemma FieldHasNoSeparator(name: string, value: string)
    requires ';' !in name && ';' !in value
    ensures ';' !in FieldText(name, value)
  {
  }

  /** The parts of a written value, for an issuer and a URI without a separator. */
  lemma CleanValueSplits(issuer: string, uri: string, methods: Option<seq<string>>)
    requires ';' !in issuer && ';' !in uri
    requires methods.Some? ==> methods.value != [] && CleanMethods(methods.value)
    ensures Split(ValueText(issuer, uri, methods), ';') ==
            if methods.None? then [issuer, FieldText(ACCOUNT_URI, uri)]
            else [issuer, FieldText(ACCOUNT_URI, uri), FieldText(VALIDATION_METHODS, Join(methods.value, ','))]
  {
    NamesAreRead();
    FieldHasNoSeparator(ACCOUNT_URI, uri);
    var account := FieldText(ACCOUNT_URI, uri);
    if methods.None? {
      assert uri + MethodsText(methods) == uri;
      ThreeParts(issuer, account, account);
    } else {
      MethodsAreRead(methods.value);
      FieldHasNoSeparator(VALIDATION_METHODS, Join(methods.value, ','));
      var list := FieldText(VALIDATION_METHODS, Join(methods.value, ','));
      ThreeParts(issuer, account, list);
      FieldThen(ACCOUNT_URI, uri, list);
    }
  }

  lemma FieldThen(name: string, value: string, after: string)
    ensures FieldText(name, value + ([';'] + after)) == FieldText(name, value) + [';'] + after
  {
  }

  lemma TwoFields(tag: string, issuer: string, uri: string, account: string)
    requires Clean(issuer) && Clean(uri)
    requires Parameter(account, (None, None)) == (Some(uri), None)
    ensures OfFields(false, tag, [issuer, account]) == Caa(false, tag, Lower(issuer), Some(uri), None)
  {
    TrimTrimmed(issuer);
    assert [issuer, account][1..] == [account] && [account][1..] == [];
    assert Parameters([account], (None, None)) == Parameters([], (Some(uri), None));
  }

  lemma ThreeFields(tag: string, issuer: string, uri: string, account: string, methods: seq<string>, list: string)
    requires Clean(issuer) && Clean(uri)
    requires Parameter(account, (None, None)) == (Some(uri), None)
    requires Parameter(list, (Some(uri), None)) == (Some(uri), Some(methods))
    ensures OfFields(false, tag, [issuer, account, list]) == Caa(false, tag, Lower(issuer), Some(uri), Some(methods))
  {
    TrimTrimmed(issuer);
    assert [issuer, account, list][1..] == [account, list] && [account, list][1..] == [list] && [list][1..] == [];
    assert Parameters([account, list], (None, None)) == Parameters([list], (Some(uri), None));
    assert Parameters([list], (Some(uri), None)) == Parameters([], (Some(uri), Some(methods)));
  }

  /** A record pin advice writes for a clean account is read back as what it says. */
  lemma WrittenCleanIsRead(tag: string, issuer: string, uri: string, methods: Option<seq<string>>)
    requires Pins(tag)
    requires Clean(issuer) && Clean(uri)
    requires methods.Some? ==> methods.value != [] && CleanMethods(methods.value)
    ensures CaaOf(RecordText(tag, issuer, uri, methods)) == Some(Caa(false, tag, Lower(issuer), Some(uri), methods))
  {
    EnvelopeIsRead(tag, issuer, uri, methods);
    CleanValueSplits(issuer, uri, methods);
    NamesAreRead();
    TrimTrimmed(uri);
    var account := FieldText(ACCOUNT_URI, uri);
    FieldIsRead(ACCOUNT_URI, uri, (None, None));
    if methods.None? {
      TwoFields(tag, issuer, uri, account);
    } else {
      var list := FieldText(VALIDATION_METHODS, Join(methods.value, ','));
      MethodsAreRead(methods.value);
      FieldIsRead(VALIDATION_METHODS, Join(methods.value, ','), (Some(uri), None));
      ThreeFields(tag, issuer, uri, account, methods.value, list);
    }
  }

  /** A record whose `validationmethods` lists none: no challenge is allowed. */
  function EmptyListText(issuer: string): string {
    "0" + " " + (ISSUE + " " + Quoted(issuer + [';'] + FieldText(VALIDATION_METHODS, "")))
  }

  lemma NoMethodIsListed(said: (Option<string>, Option<seq<string>>))
    ensures Parameter(FieldText(VALIDATION_METHODS, ""), said) == (said.0, Some([]))
  {
    NamesAreRead();
    FieldIsRead(VALIDATION_METHODS, "", said);
    SplitOf("", ',');
    TrimTrimmed("");
    assert [""][1..] == [] && NonEmpty([]) == [];
    assert MethodList("") == [];
  }

  lemma OnlyMethods(tag: string, issuer: string, list: string, methods: seq<string>)
    requires Clean(issuer) && Parameter(list, (None, None)) == (None, Some(methods))
    ensures OfFields(false, tag, [issuer, list]) == Caa(false, tag, Lower(issuer), None, Some(methods))
  {
    TrimTrimmed(issuer);
    assert [issuer, list][1..] == [list] && [list][1..] == [];
    assert Parameters([list], (None, None)) == Parameters([], (None, Some(methods)));
  }

  lemma EmptyListIsRead(issuer: string)
    requires Clean(issuer)
    ensures CaaOf(EmptyListText(issuer)) == Some(Caa(false, ISSUE, Lower(issuer), None, Some([])))
  {
    var list := FieldText(VALIDATION_METHODS, "");
    EnvelopeOfValue(ISSUE, issuer + [';'] + list);
    NamesAreRead();
    FieldHasNoSeparator(VALIDATION_METHODS, "");
    ThreeParts(issuer, list, list);
    NoMethodIsListed((None, None));
    OnlyMethods(ISSUE, issuer, list, []);
  }

  /** The parts of a written value, whatever the issuer and the URI hold: the account's is
      always one of them. */
  lemma AnyValueSplits(issuer: string, uri: string, methods: Option<seq<string>>)
    ensures var tail := Split(uri + MethodsText(methods), ';');
            Split(ValueText(issuer, uri, methods), ';') ==
            Split(issuer, ';') + ([FieldText(ACCOUNT_URI, tail[0])] + tail[1..])
  {
    NamesAreRead();
    var tail := uri + MethodsText(methods);
    SplitAt(issuer, ';', FieldText(ACCOUNT_URI, tail));
    SplitAfter(" " + ACCOUNT_URI + ['='], ';', tail);
  }

  /** Whatever stands in the issuer and the URI, a written record names some account, and
      what is read of it is clean. */
  lemma WrittenNamesAnAccount(tag: string, issuer: string, uri: string, methods: Option<seq<string>>)
    requires Pins(tag)
    ensures var c := CaaOf(RecordText(tag, issuer, uri, methods));
            && c.Some? && !c.value.critical && c.value.tag == tag
            && Clean(c.value.issuer) && c.value.account.Some? && Clean(c.value.account.value)
  {
    EnvelopeIsRead(tag, issuer, uri, methods);
    ValueIsClean(false, tag, ValueText(issuer, uri, methods));
    ValueNamesAnAccount(tag, issuer, uri, methods);
  }

  lemma ValueNamesAnAccount(tag: string, issuer: string, uri: string, methods: Option<seq<string>>)
    ensures OfValue(false, tag, ValueText(issuer, uri, methods)).account.Some?
  {
    AnyValueSplits(issuer, uri, methods);
    var first, tail := Split(issuer, ';'), Split(uri + MethodsText(methods), ';');
    SplitParts(issuer, ';');
    SplitParts(uri + MethodsText(methods), ';');
    assert tail[0] in tail;
    AccountStays(tag, first, tail[0], tail[1..]);
  }

  lemma AccountStays(tag: string, before: seq<string>, uri: string, after: seq<string>)
    requires before != []
    requires ';' !in uri && forall f :: f in before || f in after ==> ';' !in f
    ensures OfFields(false, tag, before + ([FieldText(ACCOUNT_URI, uri)] + after)).account.Some?
  {
    var account := FieldText(ACCOUNT_URI, uri);
    var at := Parameters(before[1..], (None, None));
    assert (before + ([account] + after))[1..] == before[1..] + ([account] + after);
    ParametersConcat(before[1..], [account] + after, (None, None));
    assert ([account] + after)[1..] == after;
    ParametersAreClean(before[1..], (None, None));
    NamesAreRead();
    FieldIsRead(ACCOUNT_URI, uri, at);
    ParameterIsClean(account, at);
    ParametersAreClean(after, Parameter(account, at));
  }

  lemma {:induction false} ParametersConcat(a: seq<string>, b: seq<string>, said: (Option<string>, Option<seq<string>>))
    ensures Parameters(a + b, said) == Parameters(b, Parameters(a, said))
  {
    if a == [] {
      assert a + b == b;
    } else {
      assert (a + b)[1..] == a[1..] + b;
      ParametersConcat(a[1..], b, Parameter(a[0], said));
    }
  }
}
