/**
 * The string operations the build scripts use: ASCII case mapping
 * (`to_lowercase`, `to_uppercase` on the ASCII names involved), the first
 * occurrence of a character (`split_once`, `split().next()`), splitting on
 * a separator, and decimal rendering of a count (`format!("{}", n)`).
 */
module Text {
  import opened Wrappers

  function LowerChar(c: char): char {
    if 'A' <= c <= 'Z' then (c as int + 32) as char else c
  }

  function UpperChar(c: char): char {
    if 'a' <= c <= 'z' then (c as int - 32) as char else c
  }

  /** ASCII lower-casing, character by character. */
  function Lower(s: string): (r: string)
    ensures |r| == |s| && forall i :: 0 <= i < |s| ==> r[i] == LowerChar(s[i])
  {
    seq(|s|, i requires 0 <= i < |s| => LowerChar(s[i]))
  }

  /** ASCII upper-casing, character by character. */
  function Upper(s: string): (r: string)
    ensures |r| == |s| && forall i :: 0 <= i < |s| ==> r[i] == UpperChar(s[i])
  {
    seq(|s|, i requires 0 <= i < |s| => UpperChar(s[i]))
  }

  /** Lower-casing twice is lower-casing once, and upper-cased text lower-cases to the same as the original. */
  lemma CaseMappings(s: string)
    ensures Lower(Lower(s)) == Lower(s)
    ensures Lower(Upper(s)) == Lower(s)
  {
  }

  /** The index of the first c in s, if any. */
  function IndexOf(s: string, c: char): (r: Option<nat>)
    ensures r.Some? ==> r.value < |s| && s[r.value] == c && forall j :: 0 <= j < r.value ==> s[j] != c
    ensures r.None? ==> forall j :: 0 <= j < |s| ==> s[j] != c
  {
    if s == [] then None
    else if s[0] == c then Some(0)
    else
      match IndexOf(s[1..], c)
      case None => None
      case Some(i) => Some(i + 1)
  }

  /** `s.split_once(c)`: the text before and after the first c. */
  function SplitOnce(s: string, c: char): Option<(string, string)> {
    match IndexOf(s, c)
    case None => None
    case Some(i) => Some((s[..i], s[i + 1..]))
  }

  /** split_once succeeds exactly when c occurs, and then glues back to s around a c-free head. */
  lemma SplitOnceSpec(s: string, c: char)
    ensures SplitOnce(s, c).None? <==> c !in s
    ensures SplitOnce(s, c).Some? ==>
      var (head, tail) := SplitOnce(s, c).value;
      s == head + [c] + tail && c !in head
  {
    match IndexOf(s, c)
    case None =>
    case Some(i) =>
      assert s == s[..i] + [c] + s[i + 1..];
  }

  /** `s.split(c).next().unwrap()`: the text before the first c, or all of s. */
  function FirstField(s: string, c: char): (r: string)
    ensures c !in r
    ensures c in s ==> |r| < |s| && s == r + [c] + s[|r| + 1..]
    ensures c !in s ==> r == s
  {
    match IndexOf(s, c)
    case None => s
    case Some(i) =>
      assert s == s[..i] + [c] + s[i + 1..];
      s[..i]
  }

  /** `s.split(c)`: the pieces between occurrences of c (an empty s gives one empty piece). */
  function Split(s: string, c: char): (r: seq<string>)
    ensures |r| >= 1
    decreases |s|
  {
    match IndexOf(s, c)
    case None => [s]
    case Some(i) => [s[..i]] + Split(s[i + 1..], c)
  }

  /** The pieces joined with separator sep. */
  function Join(parts: seq<string>, sep: string): string
    decreases |parts|
  {
    if parts == [] then ""
    else if |parts| == 1 then parts[0]
    else parts[0] + sep + Join(parts[1..], sep)
  }

  /** Splitting and joining back with the same character gives s. */
  lemma {:induction false} SplitJoin(s: string, c: char)
    ensures Join(Split(s, c), [c]) == s
    decreases |s|
  {
    match IndexOf(s, c)
    case None =>
    case Some(i) =>
      var head, rest := s[..i], s[i + 1..];
      var tail := Split(rest, c);
      SplitJoin(rest, c);
      assert Split(s, c) == [head] + tail;
      assert ([head] + tail)[1..] == tail;
      assert Join([head] + tail, [c]) == head + [c] + Join(tail, [c]);
      assert s == head + [c] + rest;
  }

  /** The first c of a + [c] + b is the one after a, when a has none. */
  lemma IndexOfFirst(a: string, c: char, b: string)
    requires c !in a
    ensures IndexOf(a + [c] + b, c) == Some(|a|)
  {
    var s := a + [c] + b;
    assert s[|a|] == c;
    assert forall j :: 0 <= j < |a| ==> s[j] == a[j];
  }

  /** Joining c-free pieces with c and splitting on c gives the pieces back. */
  lemma {:induction false} JoinSplit(parts: seq<string>, c: char)
    requires parts != [] && forall k :: 0 <= k < |parts| ==> c !in parts[k]
    ensures Split(Join(parts, [c]), c) == parts
    decreases |parts|
  {
    if |parts| > 1 {
      var head, rest := parts[0], Join(parts[1..], [c]);
      JoinSplit(parts[1..], c);
      IndexOfFirst(head, c, rest);
      var s := head + [c] + rest;
      assert Join(parts, [c]) == s;
      assert s[..|head|] == head;
      assert s[|head| + 1..] == rest;
      assert parts == [head] + parts[1..];
    }
  }

  /** No piece of a split contains the separator. */
  lemma {:induction false} SplitPiecesFree(s: string, c: char)
    ensures forall k :: 0 <= k < |Split(s, c)| ==> c !in Split(s, c)[k]
    decreases |s|
  {
    match IndexOf(s, c)
    case None =>
    case Some(i) =>
      SplitPiecesFree(s[i + 1..], c);
      assert Split(s, c) == [s[..i]] + Split(s[i + 1..], c);
  }

  // ----- decimal rendering of a count -----

  function DigitChar(d: nat): char
    requires d < 10
  {
    ('0' as int + d) as char
  }

  /** `format!("{}", n)` for an unsigned integer: decimal, no leading zeros. */
  function NatToString(n: nat): (r: string)
    ensures |r| >= 1 && forall i :: 0 <= i < |r| ==> '0' <= r[i] <= '9'
    ensures |r| > 1 ==> r[0] != '0'
    decreases n
  {
    if n < 10 then [DigitChar(n)] else NatToString(n / 10) + [DigitChar(n % 10)]
  }

  /** The value of a string of decimal digits. */
  function ParseDecimal(s: string): nat
    requires forall i :: 0 <= i < |s| ==> '0' <= s[i] <= '9'
    decreases |s|
  {
    if s == [] then 0 else ParseDecimal(s[..|s| - 1]) * 10 + (s[|s| - 1] as int - '0' as int)
  }

  /** Reading the decimal text back gives the number. */
  lemma {:induction false} NatToStringRoundTrip(n: nat)
    ensures ParseDecimal(NatToString(n)) == n
    decreases n
  {
    if n >= 10 {
      NatToStringRoundTrip(n / 10);
      var s := NatToString(n);
      assert s[..|s| - 1] == NatToString(n / 10);
    }
  }
}
