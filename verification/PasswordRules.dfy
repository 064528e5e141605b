/** What a password must look like, and a generator that always produces one that does. */
module PasswordRules {
  import opened Prelude

  datatype Policy = Policy(
    minLength: int, upper: bool, lower: bool, numbers: bool, special: bool,
    maxAttempts: int, lockoutMins: int, expiryDays: Option<int>, otpLength: int, otpMins: int, sessionMins: int)

  /** validatePolicyRanges. */
  predicate InRanges(p: Policy) {
    && 6 <= p.minLength <= 128
    && 1 <= p.maxAttempts <= 100
    && 1 <= p.lockoutMins <= 10080
    && (p.expiryDays.Some? ==> 1 <= p.expiryDays.value <= 365)
    && 4 <= p.otpLength <= 10
    && 1 <= p.otpMins <= 60
    && 1 <= p.sessionMins <= 10080
  }

  datatype CharClass = Upper | Lower | Number | Special | Other

  /** unicode.IsUpper, IsLower, IsNumber, IsPunct or IsSymbol, on ASCII. */
  function ClassOf(c: char): CharClass {
    if 'A' <= c <= 'Z' then Upper
    else if 'a' <= c <= 'z' then Lower
    else if '0' <= c <= '9' then Number
    else if '!' <= c <= '~' then Special
    else Other
  }

  predicate Has(pw: string, k: CharClass) { exists i | 0 <= i < |pw| :: ClassOf(pw[i]) == k }

  function Lacking(pw: string, wanted: bool, k: CharClass): seq<CharClass> { if wanted && !Has(pw, k) then [k] else [] }

  /** The classes the error message of validateComplexity names, in its order. */
  function Missing(pw: string, p: Policy): seq<CharClass> {
    Lacking(pw, p.upper, Upper) + Lacking(pw, p.lower, Lower)
    + Lacking(pw, p.numbers, Number) + Lacking(pw, p.special, Special)
  }

  ghost predicate Meets(pw: string, upper: bool, lower: bool, numbers: bool, special: bool) {
    (upper ==> Has(pw, Upper)) && (lower ==> Has(pw, Lower))
    && (numbers ==> Has(pw, Number)) && (special ==> Has(pw, Special))
  }

  lemma MissingMeans(pw: string, p: Policy)
    ensures Missing(pw, p) == [] <==> Meets(pw, p.upper, p.lower, p.numbers, p.special)
  {}

  method ValidateComplexity(pw: string, p: Policy) returns (missing: seq<CharClass>)
    ensures missing == Missing(pw, p)
    ensures missing == [] <==> Meets(pw, p.upper, p.lower, p.numbers, p.special)
  {
    var hasUpper, hasLower, hasNumber, hasSpecial := false, false, false, false;
    for i := 0 to |pw|
      invariant hasUpper == Has(pw[..i], Upper) && hasLower == Has(pw[..i], Lower)
      invariant hasNumber == Has(pw[..i], Number) && hasSpecial == Has(pw[..i], Special)
    {
      HasOneMore(pw, i);
      match ClassOf(pw[i]) {
        case Upper => hasUpper := true;
        case Lower => hasLower := true;
        case Number => hasNumber := true;
        case Special => hasSpecial := true;
        case Other =>
      }
    }
    assert pw[..|pw|] == pw;
    missing := [];
    if p.upper && !hasUpper { missing := missing + [Upper]; }
    if p.lower && !hasLower { missing := missing + [Lower]; }
    if p.numbers && !hasNumber { missing := missing + [Number]; }
    if p.special && !hasSpecial { missing := missing + [Special]; }
  }

  lemma HasOneMore(pw: string, i: nat)
    requires i < |pw|
    ensures forall k :: Has(pw[..i + 1], k) <==> Has(pw[..i], k) || ClassOf(pw[i]) == k
  {
    forall k ensures Has(pw[..i + 1], k) <==> Has(pw[..i], k) || ClassOf(pw[i]) == k {
      if Has(pw[..i], k) {
        var j :| 0 <= j < i && ClassOf(pw[..i][j]) == k;
        assert pw[..i + 1][j] == pw[..i][j];
      }
      if ClassOf(pw[i]) == k { assert pw[..i + 1][i] == pw[i]; }
      if Has(pw[..i + 1], k) {
        var j :| 0 <= j < i + 1 && ClassOf(pw[..i + 1][j]) == k;
        assert j < i ==> pw[..i][j] == pw[..i + 1][j];
      }
    }
  }

  // ---------- the generator ----------

  const UPPERCASE := "ABCDEFGHIJKLMNOPQRSTUVWXYZ"
  const LOWERCASE := "abcdefghijklmnopqrstuvwxyz"
  const DIGITS := "0123456789"
  const SPECIALS := "!@#$%^&*()_+-=[]{}|;':\",./<>?`~"

  function Letters(k: CharClass): string
    requires k != Other
  {
    match k
    case Upper => UPPERCASE
    case Lower => LOWERCASE
    case Number => DIGITS
    case Special => SPECIALS
  }

  lemma LettersAreOfTheirClass(k: CharClass)
    requires k != Other
    ensures Letters(k) != "" && forall i | 0 <= i < |Letters(k)| :: ClassOf(Letters(k)[i]) == k
  {}

  function LettersIf(wanted: bool, k: CharClass): string
    requires k != Other
  { if wanted then Letters(k) else "" }

  /** rand.Int: any number below the bound, or, from a source that may fail, an error. */
  method RandInt(bound: nat, mayFail: bool) returns (r: Option<nat>)
    requires bound > 0
    ensures r.Some? ==> r.value < bound
    ensures r.None? ==> mayFail
  {
    if mayFail {
      if * { return None; }
    }
    var x: nat :| x < bound;
    return Some(x);
  }

  method Pick(alphabet: string, mayFail: bool) returns (c: Option<char>)
    requires alphabet != ""
    ensures c.Some? ==> c.value in alphabet
    ensures c.None? ==> mayFail
  {
    var i := RandInt(|alphabet|, mayFail);
    c := if i.Some? then Some(alphabet[i.value]) else None;
  }

  /** Fisher-Yates, in place. */
  method Shuffle(a: array<char>, mayFail: bool) returns (ok: bool)
    modifies a
    ensures multiset(a[..]) == multiset(old(a[..]))
    ensures !ok ==> mayFail
  {
    var i := a.Length - 1;
    while i > 0
      invariant -1 <= i < a.Length
      invariant multiset(a[..]) == multiset(old(a[..]))
    {
      var j := RandInt(i + 1, mayFail);
      if j.None? { return false; }
      a[i], a[j.value] := a[j.value], a[i];
      i := i - 1;
    }
    return true;
  }

  method Fill(alphabet: string, n: nat, mayFail: bool) returns (s: Option<string>)
    requires alphabet != ""
    ensures s.None? ==> mayFail
    ensures s.Some? ==> |s.value| == n && forall c | c in s.value :: c in alphabet
  {
    var a := new char[n];
    for i := 0 to n
      invariant forall k | 0 <= k < i :: a[k] in alphabet
    {
      var c := Pick(alphabet, mayFail);
      if c.None? { return None; }
      a[i] := c.value;
    }
    return Some(a[..]);
  }

  function Charset(upper: bool, lower: bool, numbers: bool, special: bool): string {
    "" + LettersIf(upper, Upper) + LettersIf(lower, Lower) + LettersIf(numbers, Number) + LettersIf(special, Special)
  }

  /** The characters a request may draw from: those of the classes it names, or all. */
  function Alphabet(upper: bool, lower: bool, numbers: bool, special: bool): string {
    var s := Charset(upper, lower, numbers, special);
    if s == "" then Charset(true, true, true, true) else s
  }

  /** One required class: its letters join the charset, one of them the required characters. */
  method Demand(wanted: bool, k: CharClass, charset: string, required: string, mayFail: bool)
    returns (ok: bool, charset': string, required': string)
    requires k != Other && forall c | c in required :: c in charset
    ensures !ok ==> mayFail
    ensures charset' == charset + LettersIf(wanted, k)
    ensures ok ==> |required'| <= |required| + 1
    ensures ok && wanted ==> Has(required', k)
    ensures ok ==> forall k' :: Has(required, k') ==> Has(required', k')
    ensures forall c | c in required' :: c in charset'
  {
    charset', required', ok := charset + LettersIf(wanted, k), required, true;
    if wanted {
      LettersAreOfTheirClass(k);
      var c := Pick(Letters(k), mayFail);
      if c.None? { ok := false; return; }
      required' := required + [c.value];
      assert required'[|required|] == c.value;
      HasPrefix(required, required');
    }
  }

  lemma HasPrefix(part: string, whole: string)
    requires part <= whole
    ensures forall k :: Has(part, k) ==> Has(whole, k)
  {
    forall k | Has(part, k) ensures Has(whole, k) {
      var i :| 0 <= i < |part| && ClassOf(part[i]) == k;
      assert whole[i] == part[i];
    }
  }

  method Required(upper: bool, lower: bool, numbers: bool, special: bool, mayFail: bool)
    returns (ok: bool, charset: string, required: string)
    ensures !ok ==> mayFail
    ensures ok ==> charset == Charset(upper, lower, numbers, special)
    ensures ok ==> |required| <= 4 && Meets(required, upper, lower, numbers, special)
    ensures ok ==> forall c | c in required :: c in charset
  {
    charset, required := "", "";
    ok, charset, required := Demand(upper, Upper, charset, required, mayFail);
    if !ok { return; }
    ok, charset, required := Demand(lower, Lower, charset, required, mayFail);
    if !ok { return; }
    ok, charset, required := Demand(numbers, Number, charset, required, mayFail);
    if !ok { return; }
    ok, charset, required := Demand(special, Special, charset, required, mayFail);
  }

  /** Whatever is drawn: at least six characters, at least one of every class asked for, and none
      from outside the alphabet. */
  method GeneratePassword(length: int, upper: bool, lower: bool, numbers: bool, special: bool, mayFail: bool)
    returns (r: Option<string>)
    ensures r.None? ==> mayFail
    ensures r.Some? ==> |r.value| == if length < 6 then 6 else length
    ensures r.Some? ==> Meets(r.value, upper, lower, numbers, special)
    ensures r.Some? ==> forall c | c in r.value :: c in Alphabet(upper, lower, numbers, special)
  {
    var n: nat := if length < 6 then 6 else length;
    var ok, charset, required := Required(upper, lower, numbers, special, mayFail);
    if !ok { return None; }
    if charset == "" { charset := Charset(true, true, true, true); }

    var rest := Fill(charset, n - |required|, mayFail);
    if rest.None? { return None; }
    var whole := required + rest.value;
    var final := new char[n](i requires 0 <= i < n => whole[i]);
    assert final[..] == whole;

    ok := Shuffle(final, mayFail);
    if !ok { return None; }
    SameCharacters(whole, final[..], required);
    return Some(final[..]);
  }

  /** A permutation keeps the classes and the characters, and so does adding more of them. */
  lemma SameCharacters(whole: string, shuffled: string, part: string)
    requires multiset(whole) == multiset(shuffled) && part <= whole
    ensures |shuffled| == |whole|
    ensures forall k :: Has(part, k) ==> Has(shuffled, k)
    ensures forall c :: c in shuffled <==> c in whole
  {
    assert |multiset(whole)| == |whole| && |multiset(shuffled)| == |shuffled|;
    forall c ensures c in shuffled <==> c in whole {
      assert c in multiset(whole) <==> c in whole;
      assert c in multiset(shuffled) <==> c in shuffled;
    }
    forall k | Has(part, k) ensures Has(shuffled, k) {
      var i :| 0 <= i < |part| && ClassOf(part[i]) == k;
      assert whole[i] in whole && whole[i] in shuffled;
      var j :| 0 <= j < |shuffled| && shuffled[j] == whole[i];
    }
  }
}
