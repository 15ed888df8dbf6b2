/**
 * The MNIST crate's build script, which embeds the test images in the
 * program: it lists the `.bin` files of the test-image directory, sorts
 * their names, and writes Rust source text holding each file's bytes, the
 * names and their number. The directory listing is a sequence of entries
 * (None when the directory cannot be read) and the readable files are a map
 * from name to contents; the generated text is the result.
 */
module MnistBuild {
  import opened MachineInts
  import opened Wrappers
  import opened Text

  // ----- selecting the .bin files -----

  /** One item of `read_dir`: an error, or a file name and whether it is valid Unicode (`to_str` succeeds). */
  datatype DirEntry = EntryError | Entry(fileName: string, unicode: bool)

  /** The index of the last c in s, if any. */
  function LastIndexOf(s: string, c: char): (r: Option<nat>)
    ensures r.Some? ==> r.value < |s| && s[r.value] == c && forall j :: r.value < j < |s| ==> s[j] != c
    ensures r.None? ==> c !in s
  {
    if s == [] then None
    else if s[|s| - 1] == c then Some(|s| - 1)
    else LastIndexOf(s[..|s| - 1], c)
  }

  /**
   * `Path::extension` of a file name: the text after the last '.', except
   * that ".." and a name whose only '.' is its first character have none.
   */
  function Extension(name: string): Option<string> {
    if name == ".." then None
    else
      match LastIndexOf(name, '.')
      case None => None
      case Some(i) => if i == 0 then None else Some(name[i + 1..])
  }

  /**
   * A name has an extension exactly when it is not ".." and holds a '.'
   * after its first character; the extension is then the '.'-free text
   * after the last '.', and a non-empty stem comes before it.
   */
  lemma ExtensionSpec(name: string)
    ensures Extension(name).Some? <==> name != ".." && exists i :: 0 < i < |name| && name[i] == '.'
    ensures Extension(name).Some? ==>
      var e := Extension(name).value;
      |e| + 1 < |name| && name == name[..|name| - |e| - 1] + "." + e && '.' !in e
  {
    if name != ".." {
      match LastIndexOf(name, '.')
      case None =>
      case Some(i) =>
        if i > 0 {
          var e := name[i + 1..];
          assert name == name[..i] + "." + e;
          assert forall j :: 0 <= j < |e| ==> e[j] == name[i + 1 + j];
        }
    }
  }

  predicate IsBinFile(e: DirEntry) {
    e.Entry? && Extension(e.fileName) == Some("bin") && e.unicode
  }

  /** The names of the selected entries, in listing order. */
  function Selected(entries: seq<DirEntry>): seq<string> {
    if entries == [] then []
    else
      var last := entries[|entries| - 1];
      Selected(entries[..|entries| - 1]) + (if IsBinFile(last) then [last.fileName] else [])
  }

  /** A name is selected exactly when some readable, Unicode entry with extension "bin" carries it. */
  lemma {:induction false} SelectedMembers(entries: seq<DirEntry>)
    ensures forall n :: n in Selected(entries) <==>
      exists k :: 0 <= k < |entries| && IsBinFile(entries[k]) && entries[k].fileName == n
  {
    if entries != [] {
      var init := entries[..|entries| - 1];
      SelectedMembers(init);
      forall n | n in Selected(entries)
        ensures exists k :: 0 <= k < |entries| && IsBinFile(entries[k]) && entries[k].fileName == n
      {
        if n in Selected(init) {
          var k :| 0 <= k < |init| && IsBinFile(init[k]) && init[k].fileName == n;
          assert entries[k] == init[k];
        } else {
          assert IsBinFile(entries[|entries| - 1]);
        }
      }
      forall n | exists k :: 0 <= k < |entries| && IsBinFile(entries[k]) && entries[k].fileName == n
        ensures n in Selected(entries)
      {
        var k :| 0 <= k < |entries| && IsBinFile(entries[k]) && entries[k].fileName == n;
        if k < |init| {
          assert init[k] == entries[k];
        }
      }
    }
  }

  lemma LastDotAt(s: string, k: nat)
    requires k < |s| && s[k] == '.' && '.' !in s[k + 1..]
    ensures LastIndexOf(s, '.') == Some(k)
  {
    assert forall j :: k < j < |s| ==> s[j] == s[k + 1..][j - k - 1];
  }

  /** "7.bin" is selected; "7.bin.bak", "7.BIN", ".bin" and "bin" are not. */
  lemma ExtensionExamples()
    ensures Extension("7.bin") == Some("bin")
    ensures Extension("7.bin.bak") == Some("bak")
    ensures Extension(".bin") == None
    ensures Extension("bin") == None
  {
    assert "7.bin"[2..] == "bin";
    LastDotAt("7.bin", 1);
    assert "7.bin.bak"[6..] == "bak";
    LastDotAt("7.bin.bak", 5);
    assert ".bin"[1..] == "bin";
    LastDotAt(".bin", 0);
  }

  /** The loop over `read_dir`: pushes each selected name; an unreadable directory gives no names. */
  method CollectBinFiles(listing: Option<seq<DirEntry>>) returns (binFiles: seq<string>)
    ensures binFiles == if listing.None? then [] else Selected(listing.value)
  {
    binFiles := [];
    if listing.Some? {
      var entries := listing.value;
      for k := 0 to |entries|
        invariant binFiles == Selected(entries[..k])
      {
        assert entries[..k + 1][..k] == entries[..k];
        if IsBinFile(entries[k]) {
          binFiles := binFiles + [entries[k].fileName];
        }
      }
      assert entries[..|entries|] == entries;
    }
  }

  // ----- ordering the names -----

  /** `String`'s `<=`: lexicographic by character (UTF-8 byte order is code point order). */
  predicate LexLe(a: string, b: string)
    decreases |a|
  {
    a == [] || (b != [] && (a[0] < b[0] || (a[0] == b[0] && LexLe(a[1..], b[1..]))))
  }

  lemma {:induction false} LexTotal(a: string, b: string)
    ensures LexLe(a, b) || LexLe(b, a)
    decreases |a|
  {
    if a != [] && b != [] && a[0] == b[0] {
      LexTotal(a[1..], b[1..]);
    }
  }

  lemma {:induction false} LexAntisymmetric(a: string, b: string)
    requires LexLe(a, b) && LexLe(b, a)
    ensures a == b
    decreases |a|
  {
    if a != [] {
      LexAntisymmetric(a[1..], b[1..]);
      assert a == [a[0]] + a[1..] && b == [b[0]] + b[1..];
    }
  }

  lemma {:induction false} LexTransitive(a: string, b: string, c: string)
    requires LexLe(a, b) && LexLe(b, c)
    ensures LexLe(a, c)
    decreases |a|
  {
    if a != [] && a[0] == b[0] && b[0] == c[0] {
      LexTransitive(a[1..], b[1..], c[1..]);
    }
  }

  predicate Sorted(s: seq<string>) {
    forall i, j :: 0 <= i < j < |s| ==> LexLe(s[i], s[j])
  }

  predicate AdjacentSorted(s: seq<string>) {
    forall k :: 0 <= k < |s| - 1 ==> LexLe(s[k], s[k + 1])
  }

  /** Ordered neighbours give an ordered sequence. */
  lemma {:induction false} AdjacentSortedIsSorted(s: seq<string>)
    requires AdjacentSorted(s)
    ensures Sorted(s)
    decreases |s|
  {
    if |s| > 1 {
      AdjacentSortedIsSorted(s[1..]);
      forall i, j | 0 <= i < j < |s| ensures LexLe(s[i], s[j]) {
        if i > 0 {
          assert LexLe(s[1..][i - 1], s[1..][j - 1]);
        } else if j > 1 {
          assert LexLe(s[1..][0], s[1..][j - 1]);
          LexTransitive(s[0], s[1], s[j]);
        }
      }
    }
  }

  /** x placed before the first element it does not exceed. */
  function InsertSorted(x: string, s: seq<string>): (r: seq<string>)
    ensures multiset(r) == multiset(s) + multiset{x}
  {
    if s == [] || LexLe(x, s[0]) then [x] + s
    else
      assert s == [s[0]] + s[1..];
      [s[0]] + InsertSorted(x, s[1..])
  }

  /** The names in ascending order. */
  function SortNames(s: seq<string>): (r: seq<string>)
    ensures multiset(r) == multiset(s)
  {
    if s == [] then []
    else
      assert s == s[..|s| - 1] + [s[|s| - 1]];
      InsertSorted(s[|s| - 1], SortNames(s[..|s| - 1]))
  }

  /** An element at most every element of a sorted sequence can go in front of it. */
  lemma PrependLeast(y: string, r: seq<string>)
    requires Sorted(r) && forall z :: z in multiset(r) ==> LexLe(y, z)
    ensures Sorted([y] + r)
  {
    forall i, j | 0 <= i < j < |[y] + r| ensures LexLe(([y] + r)[i], ([y] + r)[j]) {
      if i == 0 {
        assert r[j - 1] in multiset(r);
      } else {
        assert ([y] + r)[i] == r[i - 1] && ([y] + r)[j] == r[j - 1];
      }
    }
  }

  lemma SortedTail(s: seq<string>)
    requires Sorted(s) && s != []
    ensures Sorted(s[1..])
  {
    forall i, j | 0 <= i < j < |s[1..]| ensures LexLe(s[1..][i], s[1..][j]) {
      assert s[1..][i] == s[i + 1] && s[1..][j] == s[j + 1];
    }
  }

  lemma {:induction false} InsertSortedKeepsOrder(x: string, s: seq<string>)
    requires Sorted(s)
    ensures Sorted(InsertSorted(x, s))
    decreases |s|
  {
    if s == [] {
    } else if LexLe(x, s[0]) {
      forall z | z in multiset(s) ensures LexLe(x, z) {
        SortedHeadIsLeast(s, z);
        LexTransitive(x, s[0], z);
      }
      PrependLeast(x, s);
    } else {
      LexTotal(x, s[0]);
      SortedTail(s);
      InsertSortedKeepsOrder(x, s[1..]);
      var r := InsertSorted(x, s[1..]);
      forall y | y in multiset(r) ensures LexLe(s[0], y) {
        if y != x {
          MultisetTail(s);
          SortedHeadIsLeast(s, y);
        }
      }
      PrependLeast(s[0], r);
    }
  }

  /** SortNames orders its input; with the multiset ensures, it is a sorted permutation. */
  lemma {:induction false} SortNamesSorted(s: seq<string>)
    ensures Sorted(SortNames(s))
    decreases |s|
  {
    if s != [] {
      SortNamesSorted(s[..|s| - 1]);
      InsertSortedKeepsOrder(s[|s| - 1], SortNames(s[..|s| - 1]));
    }
  }

  lemma {:induction false} LexReflexive(a: string)
    ensures LexLe(a, a)
    decreases |a|
  {
    if a != [] {
      LexReflexive(a[1..]);
    }
  }

  /** The first element of a sorted sequence is at most each of its elements. */
  lemma SortedHeadIsLeast(a: seq<string>, x: string)
    requires Sorted(a) && x in multiset(a)
    ensures LexLe(a[0], x)
  {
    var i :| 0 <= i < |a| && a[i] == x;
    if i == 0 {
      LexReflexive(x);
    }
  }

  lemma MultisetTail(a: seq<string>)
    requires a != []
    ensures multiset(a) == multiset{a[0]} + multiset(a[1..])
  {
    assert a == [a[0]] + a[1..];
  }

  /** Sorted sequences with the same elements start with the same element. */
  lemma SortedHeads(a: seq<string>, b: seq<string>)
    requires Sorted(a) && Sorted(b) && multiset(a) == multiset(b) && a != []
    ensures b != [] && a[0] == b[0]
  {
    assert a[0] in multiset(a);
    assert b != [];
    assert b[0] in multiset(b);
    SortedHeadIsLeast(a, b[0]);
    SortedHeadIsLeast(b, a[0]);
    LexAntisymmetric(a[0], b[0]);
  }

  lemma TailMultisets(a: seq<string>, b: seq<string>)
    requires a != [] && b != [] && a[0] == b[0] && multiset(a) == multiset(b)
    ensures multiset(a[1..]) == multiset(b[1..])
  {
    MultisetTail(a);
    MultisetTail(b);
    assert multiset(a[1..]) == multiset(a) - multiset{a[0]};
    assert multiset(b[1..]) == multiset(b) - multiset{b[0]};
  }

  /** Two sorted sequences with the same elements are equal, so the sorted order is unique. */
  lemma {:induction false} SortedUnique(a: seq<string>, b: seq<string>)
    requires Sorted(a) && Sorted(b) && multiset(a) == multiset(b)
    ensures a == b
    decreases |a|
  {
    if a == [] {
      assert |b| == |multiset(b)| == 0;
    } else {
      SortedHeads(a, b);
      TailMultisets(a, b);
      SortedTail(a);
      SortedTail(b);
      SortedUnique(a[1..], b[1..]);
      assert a == [a[0]] + a[1..] && b == [b[0]] + b[1..];
    }
  }

  /** The first n elements are in order, neighbour by neighbour. */
  predicate PrefixSorted(s: seq<string>, n: nat) {
    forall k :: 0 <= k < n - 1 && k + 1 < |s| ==> LexLe(s[k], s[k + 1])
  }

  /**
   * While a[i]'s value moves down to position j: everything before j is in
   * order, everything from j to i is in order, and the neighbours of j are
   * in order with each other.
   */
  predicate Inserting(s: seq<string>, j: nat, i: nat) {
    j <= i < |s| &&
    (forall k :: 0 <= k < j - 1 ==> LexLe(s[k], s[k + 1])) &&
    (forall k :: j <= k < i ==> LexLe(s[k], s[k + 1])) &&
    (0 < j < i ==> LexLe(s[j - 1], s[j + 1]))
  }

  lemma InsertingSwap(s: seq<string>, j: nat, i: nat)
    requires Inserting(s, j, i) && 0 < j && !LexLe(s[j - 1], s[j])
    ensures Inserting(s[j - 1 := s[j]][j := s[j - 1]], j - 1, i)
  {
    LexTotal(s[j - 1], s[j]);
  }

  lemma InsertingDone(s: seq<string>, j: nat, i: nat)
    requires Inserting(s, j, i) && (j == 0 || LexLe(s[j - 1], s[j]))
    ensures PrefixSorted(s, i + 1)
  {
  }

  /** One pass of insertion: moves a[i] down past every larger neighbour. */
  method InsertStep(a: array<string>, i: nat)
    requires i < a.Length && PrefixSorted(a[..], i)
    modifies a
    ensures PrefixSorted(a[..], i + 1)
    ensures multiset(a[..]) == multiset(old(a[..]))
  {
    var j: nat := i;
    while j > 0 && !LexLe(a[j - 1], a[j])
      invariant Inserting(a[..], j, i)
      invariant multiset(a[..]) == multiset(old(a[..]))
    {
      ghost var s := a[..];
      InsertingSwap(s, j, i);
      a[j - 1], a[j] := a[j], a[j - 1];
      assert a[..] == s[j - 1 := s[j]][j := s[j - 1]];
      j := j - 1;
    }
    InsertingDone(a[..], j, i);
  }

  /** `bin_files.sort()`: insertion sort by swapping neighbours, in place. */
  method SortInPlace(a: array<string>)
    modifies a
    ensures a[..] == SortNames(old(a[..]))
  {
    ghost var original := a[..];
    for i := 0 to a.Length
      invariant PrefixSorted(a[..], i)
      invariant multiset(a[..]) == multiset(original)
    {
      InsertStep(a, i);
    }
    assert AdjacentSorted(a[..]);
    AdjacentSortedIsSorted(a[..]);
    SortNamesSorted(original);
    SortedUnique(a[..], SortNames(original));
  }

  // ----- the generated text -----

  /** The pieces of s mapped through f and joined, built from the back as the loops build them. */
  function ConcatMap<T>(f: T -> string, s: seq<T>): string {
    if s == [] then "" else ConcatMap(f, s[..|s| - 1]) + f(s[|s| - 1])
  }

  lemma {:induction false} ConcatMapAppend<T>(f: T -> string, a: seq<T>, b: seq<T>)
    ensures ConcatMap(f, a + b) == ConcatMap(f, a) + ConcatMap(f, b)
    decreases |b|
  {
    if b != [] {
      var b' := b[..|b| - 1];
      ConcatMapAppend(f, a, b');
      assert (a + b)[..|a + b| - 1] == a + b';
    } else {
      assert a + b == a;
    }
  }

  lemma ConcatMapCons<T>(f: T -> string, s: seq<T>)
    requires s != []
    ensures ConcatMap(f, s) == f(s[0]) + ConcatMap(f, s[1..])
  {
    ConcatMapAppend(f, [s[0]], s[1..]);
    assert [s[0]] + s[1..] == s;
    assert [s[0]][..0] == [];
  }

  lemma ConcatMapSnoc<T>(f: T -> string, s: seq<T>, x: T)
    ensures ConcatMap(f, s + [x]) == ConcatMap(f, s) + f(x)
  {
    assert (s + [x])[..|s|] == s;
  }

  function HexDigit(d: nat): (c: char)
    requires d < 16
  {
    if d < 10 then ('0' as int + d) as char else ('a' as int + d - 10) as char
  }

  predicate IsHexDigit(c: char) {
    '0' <= c <= '9' || 'a' <= c <= 'f'
  }

  function HexValue(c: char): nat
    requires IsHexDigit(c)
  {
    if c <= '9' then c as int - '0' as int else c as int - 'a' as int + 10
  }

  /** `format!("0x{:02x}, ", byte)`: two lower-case hex digits, high nibble first. */
  function ByteLiteral(b: u8): (r: string)
    ensures |r| == 6
  {
    "0x" + [HexDigit(b / 16), HexDigit(b % 16)] + ", "
  }

  /** 0xab is written "0xab, " and 7 is written "0x07, ". */
  lemma ByteLiteralExamples()
    ensures ByteLiteral(0xab) == "0xab, "
    ensures ByteLiteral(7) == "0x07, "
  {
  }

  /** The bytes of one chunk, as the innermost loop writes them. */
  function Tokens(bytes: seq<u8>): string {
    ConcatMap(ByteLiteral, bytes)
  }

  const Indent: string := "        "

  /** One line of the array literal. */
  function ChunkLine(chunk: seq<u8>): string {
    Indent + Tokens(chunk) + "\n"
  }

  /** `buffer.chunks(16)`. */
  function Chunks(buf: seq<u8>): (r: seq<seq<u8>>)
    decreases |buf|
  {
    if buf == [] then []
    else if |buf| <= 16 then [buf]
    else [buf[..16]] + Chunks(buf[16..])
  }

  function Flatten(cs: seq<seq<u8>>): seq<u8> {
    if cs == [] then [] else cs[0] + Flatten(cs[1..])
  }

  /** The chunks cover the buffer in order; each is 1 to 16 bytes, and all but the last exactly 16. */
  lemma {:induction false} ChunksPartition(buf: seq<u8>)
    ensures Flatten(Chunks(buf)) == buf
    ensures forall k :: 0 <= k < |Chunks(buf)| ==> 1 <= |Chunks(buf)[k]| <= 16
    ensures forall k :: 0 <= k < |Chunks(buf)| - 1 ==> |Chunks(buf)[k]| == 16
    decreases |buf|
  {
    if |buf| > 16 {
      ChunksPartition(buf[16..]);
      var cs := Chunks(buf);
      assert cs == [buf[..16]] + Chunks(buf[16..]);
      assert cs[1..] == Chunks(buf[16..]);
      assert buf == buf[..16] + buf[16..];
      forall k | 0 < k < |cs| ensures cs[k] == Chunks(buf[16..])[k - 1] {
      }
    } else if buf != [] {
      assert Chunks(buf)[1..] == [];
    }
  }

  /** One embedded file: `&[`, the chunk lines, `],`. */
  function ImageEntry(buf: seq<u8>): string {
    "    &[\n" + ConcatMap(ChunkLine, Chunks(buf)) + "    ],\n"
  }

  /** The contents of the names whose file could be opened and read, in order. */
  function Readable(names: seq<string>, files: map<string, seq<u8>>): seq<seq<u8>> {
    if names == [] then []
    else
      var last := names[|names| - 1];
      Readable(names[..|names| - 1], files) + (if last in files then [files[last]] else [])
  }

  /** There is one image entry per readable file, so never more entries than names. */
  lemma {:induction false} ReadableCount(names: seq<string>, files: map<string, seq<u8>>)
    ensures |Readable(names, files)| <= |names|
    ensures |Readable(names, files)| == |names| <==> forall k :: 0 <= k < |names| ==> names[k] in files
  {
    if names != [] {
      var init := names[..|names| - 1];
      ReadableCount(init, files);
      if forall k :: 0 <= k < |names| ==> names[k] in files {
        assert forall k :: 0 <= k < |init| ==> init[k] == names[k];
      }
    }
  }

  const ImagesHeader: string := "pub const EMBEDDED_TEST_IMAGES: &[&[u8]] = &[\n"
  const NamesHeader: string := "pub const EMBEDDED_TEST_IMAGE_NAMES: &[&str] = &[\n"
  const Terminator: string := "];\n\n"
  const CountPrefix: string := "pub const EMBEDDED_TEST_IMAGE_COUNT: usize = "

  function NameLine(name: string): string {
    "    \"" + name + "\",\n"
  }

  /** `embedded_images.rs`: the images, then the names, then their count. */
  function EmbeddedImages(names: seq<string>, files: map<string, seq<u8>>): string {
    ImagesHeader + ConcatMap(ImageEntry, Readable(names, files)) + Terminator
    + NamesHeader + ConcatMap(NameLine, names) + Terminator
    + CountLine(|names|)
  }

  // ----- reading the text back -----

  function Prepend(b: u8, o: Option<seq<u8>>): Option<seq<u8>> {
    match o
    case None => None
    case Some(r) => Some([b] + r)
  }

  /** The bytes of a run of `0xhh, ` literals, skipping spaces and line breaks. */
  function DecodeBytes(s: string): Option<seq<u8>>
    decreases |s|
  {
    if s == [] then Some([])
    else if s[0] == ' ' || s[0] == '\n' then DecodeBytes(s[1..])
    else if |s| >= 6 && s[0] == '0' && s[1] == 'x' && IsHexDigit(s[2]) && IsHexDigit(s[3]) && s[4] == ',' && s[5] == ' '
    then Prepend((HexValue(s[2]) * 16 + HexValue(s[3])) as u8, DecodeBytes(s[6..]))
    else None
  }

  lemma ByteLiteralDecodes(b: u8, rest: string)
    ensures DecodeBytes(ByteLiteral(b) + rest) == Prepend(b, DecodeBytes(rest))
  {
    var s := ByteLiteral(b) + rest;
    assert s[2] == HexDigit(b / 16) && s[3] == HexDigit(b % 16);
    assert HexValue(HexDigit(b / 16)) * 16 + HexValue(HexDigit(b % 16)) == b;
    assert s[6..] == rest;
  }

  function PrependAll(bytes: seq<u8>, o: Option<seq<u8>>): Option<seq<u8>> {
    match o
    case None => None
    case Some(r) => Some(bytes + r)
  }

  lemma PrependAllCons(bytes: seq<u8>, o: Option<seq<u8>>)
    requires bytes != []
    ensures Prepend(bytes[0], PrependAll(bytes[1..], o)) == PrependAll(bytes, o)
  {
    if o.Some? {
      assert bytes == [bytes[0]] + bytes[1..];
      assert [bytes[0]] + (bytes[1..] + o.value) == ([bytes[0]] + bytes[1..]) + o.value;
    }
  }

  lemma {:induction false} TokensDecode(bytes: seq<u8>, rest: string)
    ensures DecodeBytes(Tokens(bytes) + rest) == PrependAll(bytes, DecodeBytes(rest))
    decreases |bytes|
  {
    if bytes == [] {
      assert Tokens(bytes) + rest == rest;
      if DecodeBytes(rest).Some? {
        assert bytes + DecodeBytes(rest).value == DecodeBytes(rest).value;
      }
    } else {
      var b := bytes[0];
      var t := Tokens(bytes[1..]) + rest;
      ConcatMapCons(ByteLiteral, bytes);
      assert Tokens(bytes) + rest == ByteLiteral(b) + t;
      ByteLiteralDecodes(b, t);
      TokensDecode(bytes[1..], rest);
      PrependAllCons(bytes, DecodeBytes(rest));
    }
  }

  lemma {:induction false} SpacesSkipped(w: string, rest: string)
    requires forall k :: 0 <= k < |w| ==> w[k] == ' ' || w[k] == '\n'
    ensures DecodeBytes(w + rest) == DecodeBytes(rest)
    decreases |w|
  {
    if w != [] {
      SpacesSkipped(w[1..], rest);
      var x := w + rest;
      assert x[0] == w[0] && x[1..] == w[1..] + rest;
      assert DecodeBytes(x) == DecodeBytes(x[1..]);
    } else {
      assert w + rest == rest;
    }
  }

  lemma ChunkLineDecodes(chunk: seq<u8>, rest: string)
    ensures DecodeBytes(ChunkLine(chunk) + rest) == PrependAll(chunk, DecodeBytes(rest))
  {
    assert ChunkLine(chunk) + rest == Indent + (Tokens(chunk) + ("\n" + rest));
    SpacesSkipped(Indent, Tokens(chunk) + ("\n" + rest));
    TokensDecode(chunk, "\n" + rest);
    SpacesSkipped("\n", rest);
  }

  lemma {:induction false} LinesDecode(buf: seq<u8>)
    ensures DecodeBytes(ConcatMap(ChunkLine, Chunks(buf))) == Some(buf)
    decreases |buf|
  {
    if buf != [] {
      var cs := Chunks(buf);
      var rest := if |buf| <= 16 then [] else buf[16..];
      assert cs == [cs[0]] + Chunks(rest) && buf == cs[0] + rest;
      ConcatMapCons(ChunkLine, cs);
      assert cs[1..] == Chunks(rest);
      LinesDecode(rest);
      ChunkLineDecodes(cs[0], ConcatMap(ChunkLine, Chunks(rest)));
    }
  }

  /** The text between the `&[` line and the `],` line of an entry. */
  function EntryBody(e: string): Option<string> {
    if |e| >= 14 && e[..7] == "    &[\n" && e[|e| - 7..] == "    ],\n" then Some(e[7..|e| - 7]) else None
  }

  /** Reading an image entry back gives the file's bytes in order. */
  lemma ImageEntryRoundTrip(buf: seq<u8>)
    ensures EntryBody(ImageEntry(buf)).Some?
    ensures DecodeBytes(EntryBody(ImageEntry(buf)).value) == Some(buf)
  {
    var body := ConcatMap(ChunkLine, Chunks(buf));
    var e := ImageEntry(buf);
    assert e == "    &[\n" + body + "    ],\n";
    assert e[..7] == "    &[\n";
    assert e[|e| - 7..] == "    ],\n";
    assert e[7..|e| - 7] == body;
    LinesDecode(buf);
  }

  /** The text between the count prefix and the closing `;`. */
  function CountText(s: string): Option<string> {
    if |s| >= |CountPrefix| + 2 && s[..|CountPrefix|] == CountPrefix && s[|s| - 2..] == ";\n"
    then Some(s[|CountPrefix|..|s| - 2]) else None
  }

  /** `format!("pub const EMBEDDED_TEST_IMAGE_COUNT: usize = {};\n", n)`. */
  function CountLine(n: nat): string {
    CountPrefix + NatToString(n) + ";\n"
  }

  /** The count line holds n in decimal between its prefix and `;`. */
  lemma CountLineRoundTrip(n: nat)
    ensures CountText(CountLine(n)).Some?
    ensures ParseDecimal(CountText(CountLine(n)).value) == n
  {
    var digits := NatToString(n);
    var line := CountLine(n);
    assert line[..|CountPrefix|] == CountPrefix;
    assert line[|line| - 2..] == ";\n";
    assert line[|CountPrefix|..|line| - 2] == digits;
    NatToStringRoundTrip(n);
  }

  /** The output opens with the images array and ends with the count line for the number of names. */
  lemma OutputFraming(names: seq<string>, files: map<string, seq<u8>>)
    ensures var out := EmbeddedImages(names, files);
      var tail := CountLine(|names|);
      |out| >= |ImagesHeader| + |tail| && out[..|ImagesHeader|] == ImagesHeader && out[|out| - |tail|..] == tail
  {
    var out := EmbeddedImages(names, files);
    var middle := ConcatMap(ImageEntry, Readable(names, files)) + Terminator
      + NamesHeader + ConcatMap(NameLine, names) + Terminator;
    assert out == ImagesHeader + middle + CountLine(|names|);
    assert (ImagesHeader + middle + CountLine(|names|))[..|ImagesHeader|] == ImagesHeader;
  }

  // ----- writing the text -----

  /** The innermost loop: one `0xhh, ` per byte after the indentation. */
  method WriteChunk(chunk: seq<u8>) returns (line: string)
    ensures line == ChunkLine(chunk)
  {
    line := Indent;
    for k := 0 to |chunk|
      invariant line == Indent + Tokens(chunk[..k])
    {
      ConcatMapSnoc(ByteLiteral, chunk[..k], chunk[k]);
      assert chunk[..k + 1] == chunk[..k] + [chunk[k]];
      line := line + ByteLiteral(chunk[k]);
    }
    assert chunk[..|chunk|] == chunk;
    line := line + "\n";
  }

  /** One file's entry: the loop over its 16-byte chunks between `&[` and `],`. */
  method WriteImage(buffer: seq<u8>) returns (text: string)
    ensures text == ImageEntry(buffer)
  {
    text := "    &[\n";
    var i := 0;
    while i < |buffer|
      invariant 0 <= i <= |buffer|
      invariant "    &[\n" + ConcatMap(ChunkLine, Chunks(buffer)) == text + ConcatMap(ChunkLine, Chunks(buffer[i..]))
      decreases |buffer| - i
    {
      var end := if |buffer| - i <= 16 then |buffer| else i + 16;
      var rest := buffer[i..];
      assert Chunks(rest) == [buffer[i..end]] + Chunks(buffer[end..]) by {
        if |rest| > 16 {
          assert rest[..16] == buffer[i..end] && rest[16..] == buffer[end..];
        } else {
          assert rest == buffer[i..end] && buffer[end..] == [];
        }
      }
      ConcatMapCons(ChunkLine, Chunks(rest));
      var line := WriteChunk(buffer[i..end]);
      text := text + line;
      i := end;
    }
    assert Chunks(buffer[i..]) == [];
    text := text + "    ],\n";
  }

  /** The loop over the sorted names that embeds every file that can be opened and read. */
  method WriteImages(binFiles: seq<string>, files: map<string, seq<u8>>) returns (images: string)
    ensures images == ConcatMap(ImageEntry, Readable(binFiles, files))
  {
    images := "";
    for k := 0 to |binFiles|
      invariant images == ConcatMap(ImageEntry, Readable(binFiles[..k], files))
    {
      var name := binFiles[k];
      ghost var done := Readable(binFiles[..k], files);
      assert binFiles[..k + 1][..k] == binFiles[..k];
      assert binFiles[..k + 1][k] == name;
      if name in files {
        var entry := WriteImage(files[name]);
        assert Readable(binFiles[..k + 1], files) == done + [files[name]];
        ConcatMapSnoc(ImageEntry, done, files[name]);
        images := images + entry;
      } else {
        assert Readable(binFiles[..k + 1], files) == done + [];
        assert done + [] == done;
      }
    }
    assert binFiles[..|binFiles|] == binFiles;
  }

  /** The loop writing one quoted name per line. */
  method WriteNames(binFiles: seq<string>) returns (names: string)
    ensures names == ConcatMap(NameLine, binFiles)
  {
    names := "";
    for k := 0 to |binFiles|
      invariant names == ConcatMap(NameLine, binFiles[..k])
    {
      ConcatMapSnoc(NameLine, binFiles[..k], binFiles[k]);
      assert binFiles[..k + 1] == binFiles[..k] + [binFiles[k]];
      names := names + NameLine(binFiles[k]);
    }
    assert binFiles[..|binFiles|] == binFiles;
  }

  /** The output, section by section: the readable files' entries, then every name, then the count. */
  method GenerateOutput(binFiles: seq<string>, files: map<string, seq<u8>>) returns (output: string)
    ensures output == EmbeddedImages(binFiles, files)
  {
    output := ImagesHeader;
    var images := WriteImages(binFiles, files);
    output := output + images;
    output := output + Terminator;
    output := output + NamesHeader;
    var names := WriteNames(binFiles);
    output := output + names;
    output := output + Terminator;
    output := output + CountLine(|binFiles|);
  }

  /** `main` after `link_helper`: select, sort, write. */
  method BuildEmbeddedImages(listing: Option<seq<DirEntry>>, files: map<string, seq<u8>>) returns (output: string)
    ensures output == EmbeddedImages(SortNames(if listing.None? then [] else Selected(listing.value)), files)
  {
    var binFiles := CollectBinFiles(listing);
    var sorted := new string[|binFiles|](k requires 0 <= k < |binFiles| => binFiles[k]);
    assert sorted[..] == binFiles;
    SortInPlace(sorted);
    output := GenerateOutput(sorted[..], files);
  }
}
