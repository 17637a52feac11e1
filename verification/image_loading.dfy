/**
 * The value-level rules of the image viewer: which files are read, which of
 * them become textures, and how the display cursor moves. The class
 * ImageViewing.ImageViewer is proved to follow them.
 */
module ImageLoading {

  newtype byte = b: int | 0 <= b < 256

  /** A Texture2D after `LoadImage` succeeded on `imageData`. */
  datatype Texture = Texture(imageData: seq<byte>)

  /**
   * The application's persistent data directory: its file names in the
   * platform's enumeration order, their contents (`File.ReadAllBytes`), and
   * the search-pattern match of `Directory.GetFiles`, whose quirks are the
   * platform's.
   */
  datatype Storage = Storage(
    fileNames: seq<string>,
    readAllBytes: string -> seq<byte>,
    matchesPattern: (string, string) -> bool)

  /** `Directory.GetFiles(path, pattern)`: the matching names, in enumeration order. */
  function GetFiles(st: Storage, pattern: string): (r: seq<string>)
  {
    Matching(st.fileNames, st.matchesPattern, pattern)
  }

  function Matching(names: seq<string>, matchesPattern: (string, string) -> bool, pattern: string): (r: seq<string>)
    ensures forall f :: f in r <==> f in names && matchesPattern(f, pattern)
    ensures |r| <= |names|
    decreases |names|
  {
    if names == [] then []
    else (if matchesPattern(names[0], pattern) then [names[0]] else []) + Matching(names[1..], matchesPattern, pattern)
  }

  /** The files the viewer reads: all `*.jpg` files, then all `*.jpeg` files. */
  function JpegFiles(st: Storage): seq<string> {
    GetFiles(st, "*.jpg") + GetFiles(st, "*.jpeg")
  }

  /**
   * The textures loading `files` yields: one per file whose contents
   * `loadImage` decodes, in file order; the other files leave nothing.
   */
  function Decoded(st: Storage, loadImage: seq<byte> -> bool, files: seq<string>): (r: seq<Texture>)
    ensures |r| <= |files|
    ensures forall i :: 0 <= i < |r| ==> loadImage(r[i].imageData)
    decreases |files|
  {
    if files == [] then []
    else
      var bytes := st.readAllBytes(files[0]);
      (if loadImage(bytes) then [Texture(bytes)] else []) + Decoded(st, loadImage, files[1..])
  }

  /** Loading a concatenation loads each part in turn. */
  lemma {:induction false} DecodedConcat(st: Storage, loadImage: seq<byte> -> bool, a: seq<string>, b: seq<string>)
    ensures Decoded(st, loadImage, a + b) == Decoded(st, loadImage, a) + Decoded(st, loadImage, b)
    decreases |a|
  {
    if a == [] {
      assert a + b == b;
    } else {
      assert (a + b)[0] == a[0];
      assert (a + b)[1..] == a[1..] + b;
      DecodedConcat(st, loadImage, a[1..], b);
    }
  }

  /** Loading one more file appends its texture exactly when it decodes. */
  lemma DecodedSnoc(st: Storage, loadImage: seq<byte> -> bool, files: seq<string>, f: string)
    ensures Decoded(st, loadImage, files + [f]) ==
      Decoded(st, loadImage, files) + (if loadImage(st.readAllBytes(f)) then [Texture(st.readAllBytes(f))] else [])
  {
    DecodedConcat(st, loadImage, files, [f]);
    assert Decoded(st, loadImage, [f]) ==
      (if loadImage(st.readAllBytes(f)) then [Texture(st.readAllBytes(f))] else []) + Decoded(st, loadImage, []);
  }

  /** A file that fails to decode is skipped, and every file after it is still loaded. */
  lemma DecodeFailureSkipped(st: Storage, loadImage: seq<byte> -> bool, files: seq<string>, k: nat)
    requires k < |files|
    requires !loadImage(st.readAllBytes(files[k]))
    ensures Decoded(st, loadImage, files) == Decoded(st, loadImage, files[..k]) + Decoded(st, loadImage, files[k + 1..])
  {
    var before, rest := files[..k], files[k..];
    assert files == before + rest;
    DecodedConcat(st, loadImage, before, rest);
    DecodedSkipsHead(st, loadImage, rest);
    assert rest[1..] == files[k + 1..];
  }

  lemma DecodedSkipsHead(st: Storage, loadImage: seq<byte> -> bool, files: seq<string>)
    requires files != [] && !loadImage(st.readAllBytes(files[0]))
    ensures Decoded(st, loadImage, files) == Decoded(st, loadImage, files[1..])
  {
  }

  /** When every file decodes, there is one texture per file, in file order. */
  lemma {:induction false} DecodedAll(st: Storage, loadImage: seq<byte> -> bool, files: seq<string>)
    requires forall f :: f in files ==> loadImage(st.readAllBytes(f))
    ensures |Decoded(st, loadImage, files)| == |files|
    ensures forall i :: 0 <= i < |files| ==> Decoded(st, loadImage, files)[i] == Texture(st.readAllBytes(files[i]))
    decreases |files|
  {
    if files != [] {
      DecodedAll(st, loadImage, files[1..]);
      var r := Decoded(st, loadImage, files);
      assert r == [Texture(st.readAllBytes(files[0]))] + Decoded(st, loadImage, files[1..]);
      forall i | 0 <= i < |files| ensures r[i] == Texture(st.readAllBytes(files[i])) {
        if i > 0 {
          assert files[1..][i - 1] == files[i];
        }
      }
    }
  }

  /** What loading the directory yields: the decoded `*.jpg` files, then the decoded `*.jpeg` files. */
  lemma LoadedInPatternOrder(st: Storage, loadImage: seq<byte> -> bool)
    ensures Decoded(st, loadImage, JpegFiles(st)) ==
      Decoded(st, loadImage, GetFiles(st, "*.jpg")) + Decoded(st, loadImage, GetFiles(st, "*.jpeg"))
  {
    DecodedConcat(st, loadImage, GetFiles(st, "*.jpg"), GetFiles(st, "*.jpeg"));
  }

  // ---------------------------------------------------------------------------
  // The display cursor.

  /**
   * `(index + 1) % count` for a cursor that is -1 ("nothing shown yet") or a
   * valid index: the next index, wrapping from the last to the first. The
   * operand is never negative, so C#'s truncating remainder and Dafny's agree.
   */
  function NextIndex(index: int, count: int): (r: int)
    requires 0 < count && -1 <= index < count
    ensures 0 <= r < count
    ensures r == if index == count - 1 then 0 else index + 1
  {
    (index + 1) % count
  }

  /** The cursor after `calls` calls of ShowNextImage on `count` textures, starting from -1. */
  function CursorAfter(count: nat, calls: nat): (r: int)
    requires 0 < count
    ensures -1 <= r < count
    ensures calls == 0 <==> r == -1
    decreases calls
  {
    if calls == 0 then -1 else NextIndex(CursorAfter(count, calls - 1), count)
  }

  /** The k-th call shows index (k - 1) mod count: the first image first, wrapping after the last. */
  lemma {:induction false} CursorCycles(count: nat, calls: nat)
    requires 0 < count && 0 < calls
    ensures CursorAfter(count, calls) == (calls - 1) % count
    decreases calls
  {
    if calls > 1 {
      CursorCycles(count, calls - 1);
      ModSuccessor(calls - 2, count);
    }
  }

  /** Adding one to a natural number moves its remainder on by one, wrapping from count - 1 to 0. */
  lemma ModSuccessor(x: nat, count: nat)
    requires 0 < count
    ensures (x + 1) % count == if x % count == count - 1 then 0 else x % count + 1
  {
    var q, p := x / count, x % count;
    assert x == q * count + p;
    if p == count - 1 {
      assert x + 1 == (q + 1) * count + 0;
      ModOfMultiplePlus(x + 1, q + 1, 0, count);
    } else {
      assert x + 1 == q * count + (p + 1);
      ModOfMultiplePlus(x + 1, q, p + 1, count);
    }
  }

  lemma ModOfMultiplePlus(a: nat, q: nat, r: nat, count: nat)
    requires 0 < count && r < count && a == q * count + r
    ensures a % count == r
  {
    var q', r' := a / count, a % count;
    assert a == q' * count + r';
    var d := q - q';
    assert d * count == r' - r by {
      assert d * count == q * count - q' * count;
    }
    if d > 0 {
      MultipleAtLeast(d, count);
    } else if d < 0 {
      MultipleAtLeast(-d, count);
    }
  }

  lemma MultipleAtLeast(k: int, count: nat)
    requires 1 <= k
    ensures count <= k * count
  {
    assert k * count == (k - 1) * count + count;
  }

  // ---------------------------------------------------------------------------
  // A worked directory.

  /** A suffix test standing in for the platform's `*.ext` search-pattern match. */
  predicate SuffixMatch(name: string, pattern: string) {
    && 0 < |pattern| && pattern[0] == '*'
    && |pattern| - 1 <= |name|
    && name[|name| - (|pattern| - 1)..] == pattern[1..]
  }

  /**
   * A directory holding `a.jpg`, `b.jpeg` and `c.txt`, all decodable: the text
   * file is not read and the two images load in pattern order. Counting the
   * call the load itself makes, the cursor goes 0, 1, 0: the load shows index
   * 0 and the next two calls of ShowNextImage show 1 and then 0.
   */
  lemma ThreeFileDirectory()
    ensures var st := Storage(["a.jpg", "b.jpeg", "c.txt"], (f: string) => [if f == "a.jpg" then 1 else 2], SuffixMatch);
      && JpegFiles(st) == ["a.jpg", "b.jpeg"]
      && Decoded(st, _ => true, JpegFiles(st)) == [Texture([1]), Texture([2])]
    ensures CursorAfter(2, 1) == 0 && CursorAfter(2, 2) == 1 && CursorAfter(2, 3) == 0
  {
    var st := Storage(["a.jpg", "b.jpeg", "c.txt"], (f: string) => [if f == "a.jpg" then 1 else 2], SuffixMatch);
    assert SuffixMatch("a.jpg", "*.jpg") && !SuffixMatch("b.jpeg", "*.jpg") && !SuffixMatch("c.txt", "*.jpg");
    assert !SuffixMatch("a.jpg", "*.jpeg") && SuffixMatch("b.jpeg", "*.jpeg") && !SuffixMatch("c.txt", "*.jpeg");
    assert GetFiles(st, "*.jpg") == ["a.jpg"];
    assert GetFiles(st, "*.jpeg") == ["b.jpeg"];
    DecodedAll(st, _ => true, JpegFiles(st));
  }
}
