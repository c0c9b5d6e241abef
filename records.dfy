/** The record model of the data viewer: one fetched observation is a mapping
    from field name to a JSON number, a JSON string or JSON null. */
module Records {
  import opened Wrappers

  /** A field value. Numbers are taken to be integers. */
  datatype Value = Num(n: int) | Str(s: string) | Null

  /** One observation; a field that is absent is `undefined` in the viewer. */
  type Record = map<string, Value>

  /** The fields an OmoCashflowData record declares, in declaration order. */
  const RecordFields: seq<string> := [
    "date", "OMO", "T-Repo", "T-Bill", "OMO+T-Repo", "OMO+T-Repo+T-Bill",
    "OMO-CUM", "T-Repo-CUM", "T-Bill-CUM", "OMO+T-Repo-CUM", "OMO+T-Repo+T-Bill-CUM"
  ]

  /** `item[key]`: None stands for `undefined`. */
  function Get(r: Record, key: string): Option<Value>
  {
    if key in r then Some(r[key]) else None
  }

  predicate IsDigit(c: char)
  {
    '0' <= c <= '9'
  }

  /** The value of one decimal digit. */
  function DigitValue(c: char): nat
    requires IsDigit(c)
  {
    c as int - '0' as int
  }

  /** The number a string of decimal digits denotes, most significant first. */
  function DecimalValue(s: string): nat
    requires forall i :: 0 <= i < |s| ==> IsDigit(s[i])
  {
    if s == [] then 0 else DecimalValue(s[..|s| - 1]) * 10 + DigitValue(s[|s| - 1])
  }

  /** The integer an optional minus sign followed by decimal digits denotes. */
  function SignedDecimalValue(s: string): int
    requires 1 <= |s|
    requires forall k :: 0 < k < |s| ==> IsDigit(s[k])
    requires s[0] != '-' ==> IsDigit(s[0])
  {
    if s[0] == '-' then -(DecimalValue(s[1..]) as int) else DecimalValue(s)
  }

  /** The decimal digits of a natural number, most significant first. */
  function NatToDecimal(n: nat): (s: string)
    ensures 1 <= |s|
    ensures forall i :: 0 <= i < |s| ==> IsDigit(s[i])
    ensures n < 10 <==> |s| == 1
    ensures |s| > 1 ==> s[0] != '0'
    ensures DecimalValue(s) == n
  {
    var d := "0123456789"[n % 10];
    if n < 10 then [d]
    else
      var t := NatToDecimal(n / 10);
      assert (t + [d])[..|t + [d]| - 1] == t;
      t + [d]
  }

  /** `String(n)` for an integer: an optional minus sign and its digits,
      with no leading zero, which read back as n. */
  function IntToDecimal(i: int): (s: string)
    ensures 1 <= |s|
    ensures s[0] == '-' <==> i < 0
    ensures forall k :: 0 < k < |s| ==> IsDigit(s[k])
    ensures i >= 0 ==> IsDigit(s[0])
    ensures i >= 0 && |s| > 1 ==> s[0] != '0'
    ensures i < 0 ==> 2 <= |s| && s[1] != '0'
    ensures SignedDecimalValue(s) == i
  {
    if i < 0 then
      var t := NatToDecimal(-i);
      assert ("-" + t)[1..] == t;
      "-" + t
    else NatToDecimal(i)
  }

  /** Different integers have different decimal strings. */
  lemma IntToDecimalInjective(i: int, j: int)
    requires i != j
    ensures IntToDecimal(i) != IntToDecimal(j)
  {
  }

  /** `String(val)` for a field value. */
  function ValueString(v: Value): string
  {
    match v
    case Num(n) => IntToDecimal(n)
    case Str(s) => s
    case Null => "null"
  }

  /** `toLowerCase` restricted to ASCII: upper-case Latin letters are mapped
      to lower case, every other character is left as it is. */
  function LowerChar(c: char): (d: char)
    ensures 'A' <= c <= 'Z' ==> 'a' <= d <= 'z'
    ensures !('A' <= c <= 'Z') ==> d == c
  {
    if 'A' <= c <= 'Z' then (c as int + 32) as char else c
  }

  function Lower(s: string): (t: string)
  {
    seq(|s|, i requires 0 <= i < |s| => LowerChar(s[i]))
  }

  /** The needle occurs in the haystack starting at index i. */
  predicate OccursAt(haystack: string, needle: string, i: int)
  {
    0 <= i <= |haystack| - |needle| && haystack[i..i + |needle|] == needle
  }

  /** `haystack.includes(needle)`. */
  predicate Contains(haystack: string, needle: string)
  {
    exists i | 0 <= i <= |haystack| :: OccursAt(haystack, needle, i)
  }

  /** A non-empty needle found in the haystack has its first character in
      the haystack. */
  lemma ContainsFirstChar(haystack: string, needle: string)
    requires |needle| > 0 && Contains(haystack, needle)
    ensures needle[0] in haystack
  {
    var i :| 0 <= i <= |haystack| && OccursAt(haystack, needle, i);
    assert haystack[i..i + |needle|][0] == needle[0];
  }

  /** Lower-casing leaves a number's decimal string unchanged. */
  lemma {:induction false} LowerOfDecimal(i: int)
    ensures Lower(IntToDecimal(i)) == IntToDecimal(i)
  {
    var s := IntToDecimal(i);
    forall k | 0 <= k < |s|
      ensures Lower(s)[k] == s[k]
    {
      assert k == 0 ==> s[k] == '-' || IsDigit(s[k]);
    }
  }
}
