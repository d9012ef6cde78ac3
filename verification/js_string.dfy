/** The few JavaScript string primitives the generator and the generated
    code rely on: white space as `String.prototype.trim` and `parseInt`
    see it, trimming, and `parseInt(s, 10)`. */
module JsString {
  import opened Wrappers

  /** The process environment: a variable is unset when it is not a key. */
  type Env = map<string, string>

  /** The value of a variable that is set to a non-empty string (a truthy
      value in JavaScript). */
  function Truthy(env: Env, name: string): (r: Option<string>)
    ensures r.Some? <==> name in env && env[name] != ""
    ensures r.Some? ==> r.value == env[name]
  {
    if name in env && env[name] != "" then Some(env[name]) else None
  }

  /** ECMAScript white space and line terminators. */
  predicate IsSpace(c: char) {
    c == '\t' || c == '\n' || c == '\U{B}' || c == '\U{C}' || c == '\r' || c == ' '
    || c == '\U{A0}' || c == '\U{1680}' || ('\U{2000}' <= c <= '\U{200A}')
    || c == '\U{2028}' || c == '\U{2029}' || c == '\U{202F}' || c == '\U{205F}'
    || c == '\U{3000}' || c == '\U{FEFF}'
  }

  /** `s` without its leading white space. */
  function TrimStart(s: string): (r: string)
    ensures |r| <= |s| && r == s[|s| - |r|..]
    ensures r == [] || !IsSpace(r[0])
    ensures forall i :: 0 <= i < |s| - |r| ==> IsSpace(s[i])
  {
    if s != [] && IsSpace(s[0]) then TrimStart(s[1..]) else s
  }

  /** `s` without its trailing white space. */
  function TrimEnd(s: string): (r: string)
    ensures |r| <= |s| && r == s[..|r|]
    ensures r == [] || !IsSpace(r[|r| - 1])
    ensures forall i :: |r| <= i < |s| ==> IsSpace(s[i])
  {
    if s != [] && IsSpace(s[|s| - 1]) then TrimEnd(s[..|s| - 1]) else s
  }

  /** `s.trim()`. */
  function Trim(s: string): string {
    TrimEnd(TrimStart(s))
  }

  /** The trimmed string is empty exactly when every character is white space. */
  lemma TrimEmpty(s: string)
    ensures Trim(s) == [] <==> forall i :: 0 <= i < |s| ==> IsSpace(s[i])
  {
  }

  predicate IsDigit(c: char) {
    '0' <= c <= '9'
  }

  /** The value of the decimal digits `s[..k]`. */
  function DigitsValue(s: string, k: nat): nat
    requires k <= |s|
    requires forall i :: 0 <= i < k ==> IsDigit(s[i])
  {
    if k == 0 then 0
    else
      assert IsDigit(s[k - 1]);
      10 * DigitsValue(s, k - 1) + (s[k - 1] as int - '0' as int)
  }

  /** The length of the run of decimal digits at the start of `s`. */
  function DigitRun(s: string): (k: nat)
    ensures k <= |s|
    ensures forall i :: 0 <= i < k ==> IsDigit(s[i])
    ensures k == |s| || !IsDigit(s[k])
  {
    if s == [] || !IsDigit(s[0]) then 0 else 1 + DigitRun(s[1..])
  }

  /** A result of `parseInt`. */
  datatype Parsed = Num(n: int) | NaN

  /** `parseInt(s, 10)`: leading white space is skipped, one sign is
      accepted, and the longest run of digits after it is read; without a
      digit the result is NaN. */
  function ParseInt(s: string): Parsed {
    var t := TrimStart(s);
    var negative := t != [] && t[0] == '-';
    var body := if t != [] && (t[0] == '-' || t[0] == '+') then t[1..] else t;
    var k := DigitRun(body);
    if k == 0 then NaN
    else
      var v: int := DigitsValue(body, k);
      Num(if negative then -v else v)
  }

  /** The decimal digits of `n`, most significant first. */
  function Decimal(n: nat): (s: string)
    ensures |s| >= 1
    ensures forall i :: 0 <= i < |s| ==> IsDigit(s[i])
  {
    var last := ['0' + (n % 10) as char];
    if n < 10 then last else Decimal(n / 10) + last
  }

  /** The value of a digit prefix depends on that prefix only. */
  lemma {:induction false} DigitsValuePrefix(s: string, t: string, k: nat)
    requires k <= |s| && k <= |t| && s[..k] == t[..k]
    requires forall i :: 0 <= i < k ==> IsDigit(s[i])
    ensures forall i :: 0 <= i < k ==> IsDigit(t[i])
    ensures DigitsValue(s, k) == DigitsValue(t, k)
  {
    forall i | 0 <= i < k ensures t[i] == s[i] {
      assert t[i] == t[..k][i];
    }
    if k > 0 {
      assert s[..k - 1] == s[..k][..k - 1];
      assert t[..k - 1] == t[..k][..k - 1];
      DigitsValuePrefix(s, t, k - 1);
    }
  }

  /** A string of digits is read to its end. */
  lemma {:induction false} DigitRunAll(s: string)
    requires forall i :: 0 <= i < |s| ==> IsDigit(s[i])
    ensures DigitRun(s) == |s|
  {
    if s != [] {
      assert forall i :: 0 <= i < |s[1..]| ==> IsDigit(s[1..][i]) by {
        forall i | 0 <= i < |s[1..]| ensures IsDigit(s[1..][i]) {
          assert s[1..][i] == s[i + 1];
        }
      }
      DigitRunAll(s[1..]);
    }
  }

  /** Reading the decimal digits of `n` gives `n` back. */
  lemma {:induction false} DecimalValue(n: nat)
    ensures DigitsValue(Decimal(n), |Decimal(n)|) == n
  {
    var last := ['0' + (n % 10) as char];
    if n >= 10 {
      var a := Decimal(n / 10);
      DecimalValue(n / 10);
      assert Decimal(n)[..|a|] == a[..|a|];
      DigitsValuePrefix(Decimal(n), a, |a|);
    }
  }

  /** `parseInt` reads back the decimal form of any natural number. */
  lemma ParseDecimal(n: nat)
    ensures ParseInt(Decimal(n)) == Num(n)
  {
    var s := Decimal(n);
    assert !IsSpace(s[0]) by {
      assert IsDigit(s[0]);
    }
    assert TrimStart(s) == s;
    assert s[0] != '-' && s[0] != '+';
    DigitRunAll(s);
    DecimalValue(n);
  }

  /** ... and of its negation. */
  lemma ParseNegativeDecimal(n: nat)
    ensures ParseInt("-" + Decimal(n)) == Num(-(n as int))
  {
    var s := Decimal(n);
    var m := ['-'] + s;
    assert m[0] == '-';
    assert TrimStart(m) == m;
    assert m[1..] == s;
    DigitRunAll(s);
    DecimalValue(n);
  }
}
