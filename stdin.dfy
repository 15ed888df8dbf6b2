/**
 * The runtime's console input: `Stdin::read`, `Stdin::try_getc` and the
 * line reader `Stdin::read_line`. The platform's `getc`/`try_getc` are
 * modelled as consuming from `input`, the bytes the console will deliver in
 * order; whether the byte after a carriage return has already arrived when
 * `try_getc` polls is the parameter `ready`.
 */
module Io {
  import opened MachineInts
  import opened Wrappers

  const LF: u8 := 10
  const CR: u8 := 13

  /** The error type of `read_line`; the source never produces it. */
  datatype Error = Wtf

  predicate IsTerminator(b: u8) {
    b == LF || b == CR
  }

  predicate HasTerminator(s: seq<u8>) {
    exists i :: 0 <= i < |s| && IsTerminator(s[i])
  }

  /** The index of the first line terminator in s. */
  function LineLength(s: seq<u8>): (k: nat)
    requires HasTerminator(s)
    ensures k < |s| && IsTerminator(s[k])
    ensures forall j :: 0 <= j < k ==> !IsTerminator(s[j])
  {
    if IsTerminator(s[0]) then 0
    else
      assert HasTerminator(s[1..]) by {
        var i :| 0 <= i < |s| && IsTerminator(s[i]);
        assert s[1..][i - 1] == s[i];
      }
      1 + LineLength(s[1..])
  }

  /** Each byte converted with `as char` (a byte is the code point of the same value). */
  function Chars(s: seq<u8>): (r: seq<char>)
    ensures |r| == |s| && forall k :: 0 <= k < |s| ==> r[k] as int == s[k]
  {
    seq(|s|, k requires 0 <= k < |s| => s[k] as char)
  }

  lemma CharsSnoc(s: seq<u8>, b: u8)
    ensures Chars(s + [b]) == Chars(s) + [b as char]
  {
    assert forall k :: 0 <= k < |s| ==> (s + [b])[k] == s[k];
  }

  /**
   * How many bytes one `read_line` takes from the input: the line and its
   * terminator, plus the byte `try_getc` finds after a carriage return.
   */
  function Consumed(s: seq<u8>, ready: bool): nat
    requires HasTerminator(s)
  {
    var k := LineLength(s);
    if s[k] == CR && ready && k + 1 < |s| then k + 2 else k + 1
  }

  /** A `String` that `read_line` appends to. */
  class StringBuffer {
    var chars: seq<char>

    constructor (initial: seq<char>)
      ensures chars == initial
    {
      chars := initial;
    }
  }

  class Stdin {
    /** The bytes the console has yet to deliver, in order. */
    var input: seq<u8>

    constructor (bytes: seq<u8>)
      ensures input == bytes
    {
      input := bytes;
    }

    /** `read`: blocks until a byte is available, so it returns only when there is one. */
    method Read() returns (ch: u8)
      requires input != []
      modifies this
      ensures ch == old(input)[0] && input == old(input)[1..]
    {
      ch := input[0];
      input := input[1..];
    }

    /** `try_getc`: the next byte if it has already arrived, None otherwise. */
    method TryGetc(ready: bool) returns (r: Option<u8>)
      modifies this
      ensures ready && old(input) != [] ==> r == Some(old(input)[0]) && input == old(input)[1..]
      ensures !(ready && old(input) != []) ==> r == None && input == old(input)
    {
      if ready && input != [] {
        r := Some(input[0]);
        input := input[1..];
      } else {
        r := None;
      }
    }

    /**
     * `read_line`: appends every byte before the first `\n` or `\r` to the
     * buffer and returns Ok of that many bytes plus one, since the count also
     * covers the terminator. After `\r` one non-blocking read is tried, and a
     * byte it finds is consumed whatever it is. The loop ends only if a
     * terminator arrives.
     */
    method ReadLine(buffer: StringBuffer, ready: bool) returns (r: Result<nat, Error>)
      requires HasTerminator(input)
      modifies this, buffer
      ensures r == Ok(LineLength(old(input)) + 1)
      ensures buffer.chars == old(buffer.chars) + Chars(old(input)[..LineLength(old(input))])
      ensures input == old(input)[Consumed(old(input), ready)..]
    {
      ghost var start := input;
      ghost var k := LineLength(input);
      var count := 0;
      while true
        invariant count <= k && input == start[count..]
        invariant buffer.chars == old(buffer.chars) + Chars(start[..count])
        decreases |input|
      {
        var ch := Read();
        assert ch == start[count];
        count := count + 1;
        if ch == LF {
          assert count == k + 1;
          break;
        } else if ch == CR {
          assert count == k + 1 && input == start[k + 1..];
          var next := TryGetc(ready);
          if next.Some? {
            if next.value != LF {
              break;
            }
          }
          break;
        }
        assert start[..count] == start[..count - 1] + [ch];
        CharsSnoc(start[..count - 1], ch);
        buffer.chars := buffer.chars + [ch as char];
      }
      r := Ok(count);
    }
  }

  // ----- properties of one line read -----

  /** What `read_line` appends holds no terminator, and the count is one more than its length. */
  lemma LineHasNoTerminator(s: seq<u8>)
    requires HasTerminator(s)
    ensures forall c :: c in Chars(s[..LineLength(s)]) ==> c != '\n' && c != '\r'
    ensures |Chars(s[..LineLength(s)])| + 1 == LineLength(s) + 1 <= Consumed(s, true)
  {
    var k := LineLength(s);
    forall c | c in Chars(s[..k]) ensures c != '\n' && c != '\r' {
      var j :| 0 <= j < k && Chars(s[..k])[j] == c;
      assert s[..k][j] == s[j];
    }
  }

  /**
   * Reading back a framed line: for a line without terminators followed by
   * a terminator t and anything else, `read_line` appends exactly that line,
   * counts it plus the terminator, and also swallows the byte after a `\r`
   * when that byte has arrived.
   */
  lemma {:induction false} ReadFramedLine(line: seq<u8>, t: u8, rest: seq<u8>, ready: bool)
    requires forall j :: 0 <= j < |line| ==> !IsTerminator(line[j])
    requires IsTerminator(t)
    ensures HasTerminator(line + [t] + rest)
    ensures LineLength(line + [t] + rest) == |line|
    ensures (line + [t] + rest)[..|line|] == line
    ensures Consumed(line + [t] + rest, ready) == if t == CR && ready && rest != [] then |line| + 2 else |line| + 1
  {
    var s := line + [t] + rest;
    assert s[|line|] == t;
    if line != [] {
      ReadFramedLine(line[1..], t, rest, ready);
      assert s[1..] == line[1..] + [t] + rest;
    }
    assert s[..|line|] == line;
  }

  /** A CRLF-terminated line takes both bytes when the `\n` has arrived, so the next read starts after it. */
  lemma CrLfConsumedTogether(line: seq<u8>, rest: seq<u8>)
    requires forall j :: 0 <= j < |line| ==> !IsTerminator(line[j])
    ensures HasTerminator(line + [CR] + ([LF] + rest))
    ensures (line + [CR] + ([LF] + rest))[Consumed(line + [CR] + ([LF] + rest), true)..] == rest
  {
    ReadFramedLine(line, CR, [LF] + rest, true);
    var s := line + [CR] + ([LF] + rest);
    assert s[|line| + 2..] == rest;
  }

  /** "hi\r\n" then "ok\n": the first read appends "hi", returns 3 and leaves "ok\n". */
  lemma ReadLineExample()
    ensures var s: seq<u8> := [104, 105, 13, 10, 111, 107, 10];
      HasTerminator(s) && LineLength(s) + 1 == 3 && Chars(s[..LineLength(s)]) == "hi" &&
      s[Consumed(s, true)..] == [111, 107, 10] && s[Consumed(s, false)..] == [10, 111, 107, 10]
  {
    var s: seq<u8> := [104, 105, 13, 10, 111, 107, 10];
    ReadFramedLine([104, 105], CR, [10, 111, 107, 10], true);
    ReadFramedLine([104, 105], CR, [10, 111, 107, 10], false);
    assert s == [104, 105] + [CR] + [10, 111, 107, 10];
    assert s[..2] == [104, 105];
    assert s[4..] == [111, 107, 10];
    assert s[3..] == [10, 111, 107, 10];
  }
}
