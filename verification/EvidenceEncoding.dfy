/**
 The bytes a directory feeds to the evidence hash: a length-prefixed, self-delimiting
 encoding, so that equal bytes mean equal entries.
 */
module EvidenceEncoding {
  import opened Faults
  import PathOrder

  type Byte = b: int | 0 <= b < 256

  type Bytes = seq<Byte>

  /** A relative path, as its names. */
  type Path = seq<Bytes>

  const SLASH: Byte := 47

  /** The bytes of `entry\0symlink\0`, `entry\0file\0` and `\0end-entry\0`. */
  const SYMLINK: Bytes := [101, 110, 116, 114, 121, 0, 115, 121, 109, 108, 105, 110, 107, 0]
  const FILE: Bytes := [101, 110, 116, 114, 121, 0, 102, 105, 108, 101, 0]
  const END: Bytes := [0, 101, 110, 100, 45, 101, 110, 116, 114, 121, 0]

  // ----- Numbers in big-endian bytes -----

  function Capacity(width: nat): nat {
    if width == 0 then 1 else 256 * Capacity(width - 1)
  }

  function BigEndian(n: nat, width: nat): (r: Bytes)
    requires n < Capacity(width)
    ensures |r| == width
  {
    if width == 0 then [] else BigEndian(n / 256, width - 1) + [n % 256]
  }

  function Value(s: Bytes): nat {
    if s == [] then 0 else Value(s[..|s| - 1]) * 256 + s[|s| - 1]
  }

  lemma {:induction false} BigEndianValue(n: nat, width: nat)
    requires n < Capacity(width)
    ensures Value(BigEndian(n, width)) == n
  {
    if width > 0 {
      var s := BigEndian(n, width);
      assert s[..|s| - 1] == BigEndian(n / 256, width - 1);
      BigEndianValue(n / 256, width - 1);
    }
  }

  // ----- Paths -----

  ghost predicate ValidPath(path: Path) {
    path != [] && forall i :: 0 <= i < |path| ==> path[i] != [] && SLASH !in path[i]
  }

  /** `as_posix`: the names separated by slashes. */
  function Joined(path: Path): Bytes {
    if path == [] then [] else if |path| == 1 then path[0] else path[0] + [SLASH] + Joined(path[1..])
  }

  function FirstName(s: Bytes): (r: Bytes)
    ensures r <= s
  {
    if s == [] || s[0] == SLASH then [] else [s[0]] + FirstName(s[1..])
  }

  function Split(s: Bytes): Path {
    var name := FirstName(s);
    if |name| == |s| then [name] else [name] + Split(s[|name| + 1..])
  }

  lemma {:induction false} NameEndsAtSlash(name: Bytes, rest: Bytes)
    requires SLASH !in name && (rest == [] || rest[0] == SLASH)
    ensures FirstName(name + rest) == name
  {
    if name == [] {
      assert name + rest == rest;
    } else {
      assert (name + rest)[1..] == name[1..] + rest;
      NameEndsAtSlash(name[1..], rest);
    }
  }

  lemma SplitFirst(name: Bytes, tail: Bytes)
    requires SLASH !in name
    ensures Split(name + [SLASH] + tail) == [name] + Split(tail)
  {
    var s := name + [SLASH] + tail;
    assert s == name + ([SLASH] + tail);
    NameEndsAtSlash(name, [SLASH] + tail);
    assert s[|name| + 1..] == tail;
  }

  lemma {:induction false} SplitJoined(path: Path)
    requires ValidPath(path)
    ensures Split(Joined(path)) == path
  {
    if |path| == 1 {
      NameEndsAtSlash(path[0], []);
      assert path[0] + [] == path[0];
    } else {
      SplitJoined(path[1..]);
      SplitFirst(path[0], Joined(path[1..]));
      hide Split, ValidPath;
      assert [path[0]] + path[1..] == path;
    }
  }

  // ----- Entries -----

  datatype Entry =
    | Symlink(path: Path, target: Bytes)
    | File(path: Path, mode: nat, content: Bytes)

  /** What fits the fixed-width fields. */
  ghost predicate Fits(e: Entry) {
    && ValidPath(e.path) && |Joined(e.path)| < Capacity(8)
    && (e.Symlink? ==> |e.target| < Capacity(8))
    && (e.File? ==> |e.content| < Capacity(8) && e.mode < 4096)
  }

  lemma ModeFits()
    ensures 4096 <= Capacity(4)
  {
    assert Capacity(4) == 256 * Capacity(3) && Capacity(3) == 256 * Capacity(2) && Capacity(2) == 256 * Capacity(1);
  }

  ghost function Field(s: Bytes): Bytes
    requires |s| < Capacity(8)
  {
    BigEndian(|s|, 8) + s
  }

  ghost function Encode(e: Entry): Bytes
    requires Fits(e)
  {
    match e
    case Symlink(path, target) => SYMLINK + Field(Joined(path)) + Field(target) + END
    case File(path, mode, content) =>
      ModeFits();
      FILE + Field(Joined(path)) + BigEndian(|content|, 8) + BigEndian(mode, 4) + content + END
  }

  ghost predicate AllFit(es: seq<Entry>) {
    forall i :: 0 <= i < |es| ==> Fits(es[i])
  }

  ghost function Stream(es: seq<Entry>): Bytes
    requires AllFit(es)
  {
    if es == [] then [] else Stream(es[..|es| - 1]) + Encode(es[|es| - 1])
  }

  // ----- The decoder -----

  datatype Parsed<T> = Parsed(value: T, rest: Bytes)

  function TakeBytes(s: Bytes, n: nat): (r: Option<Parsed<Bytes>>)
    ensures r.Some? ==> |r.value.rest| == |s| - n
  {
    if |s| < n then None else Some(Parsed(s[..n], s[n..]))
  }

  function TakeNumber(s: Bytes, width: nat): (r: Option<Parsed<nat>>)
    ensures r.Some? ==> |r.value.rest| == |s| - width
  {
    if |s| < width then None else Some(Parsed(Value(s[..width]), s[width..]))
  }

  function TakeField(s: Bytes): (r: Option<Parsed<Bytes>>)
    ensures r.Some? ==> |r.value.rest| < |s|
  {
    match TakeNumber(s, 8)
    case None => None
    case Some(n) => TakeBytes(n.rest, n.value)
  }

  function TakeTag(s: Bytes, tag: Bytes): (r: Option<Bytes>)
    ensures r.Some? ==> |r.value| == |s| - |tag|
  {
    if tag <= s then Some(s[|tag|..]) else None
  }

  function DecodeSymlink(s: Bytes): (r: Option<Parsed<Entry>>)
    ensures r.Some? ==> |r.value.rest| < |s|
  {
    match TakeField(s)
    case None => None
    case Some(path) =>
      match TakeField(path.rest)
      case None => None
      case Some(target) =>
        match TakeTag(target.rest, END)
        case None => None
        case Some(rest) => Some(Parsed(Symlink(Split(path.value), target.value), rest))
  }

  function DecodeFile(s: Bytes): (r: Option<Parsed<Entry>>)
    ensures r.Some? ==> |r.value.rest| < |s|
  {
    match TakeField(s)
    case None => None
    case Some(path) =>
      match TakeNumber(path.rest, 8)
      case None => None
      case Some(size) =>
        match TakeNumber(size.rest, 4)
        case None => None
        case Some(mode) =>
          match TakeBytes(mode.rest, size.value)
          case None => None
          case Some(content) =>
            match TakeTag(content.rest, END)
            case None => None
            case Some(rest) => Some(Parsed(File(Split(path.value), mode.value, content.value), rest))
  }

  function DecodeEntry(s: Bytes): (r: Option<Parsed<Entry>>)
    ensures r.Some? ==> |r.value.rest| < |s|
  {
    match TakeTag(s, SYMLINK)
    case Some(rest) => DecodeSymlink(rest)
    case None =>
      match TakeTag(s, FILE)
      case Some(rest) => DecodeFile(rest)
      case None => None
  }

  function Decode(s: Bytes): Option<seq<Entry>>
    decreases |s|
  {
    if s == [] then Some([])
    else
      match DecodeEntry(s)
      case None => None
      case Some(first) =>
        match Decode(first.rest)
        case None => None
        case Some(es) => Some([first.value] + es)
  }

  // ----- Decoding undoes encoding -----

  lemma NumberBack(n: nat, width: nat, rest: Bytes)
    requires n < Capacity(width)
    ensures TakeNumber(BigEndian(n, width) + rest, width) == Some(Parsed(n, rest))
  {
    var s := BigEndian(n, width);
    assert (s + rest)[..width] == s && (s + rest)[width..] == rest;
    BigEndianValue(n, width);
  }

  lemma BytesBack(s: Bytes, rest: Bytes)
    ensures TakeBytes(s + rest, |s|) == Some(Parsed(s, rest))
  {
    assert (s + rest)[..|s|] == s && (s + rest)[|s|..] == rest;
  }

  lemma FieldBack(s: Bytes, rest: Bytes)
    requires |s| < Capacity(8)
    ensures TakeField(Field(s) + rest) == Some(Parsed(s, rest))
  {
    assert Field(s) + rest == BigEndian(|s|, 8) + (s + rest);
    NumberBack(|s|, 8, s + rest);
    BytesBack(s, rest);
  }

  lemma TagBack(tag: Bytes, rest: Bytes)
    ensures TakeTag(tag + rest, tag) == Some(rest)
  {
    assert (tag + rest)[|tag|..] == rest;
  }

  lemma SymlinkBack(path: Path, target: Bytes, rest: Bytes)
    requires Fits(Symlink(path, target))
    ensures DecodeSymlink(Field(Joined(path)) + (Field(target) + (END + rest)))
         == Some(Parsed(Symlink(path, target), rest))
  {
    FieldBack(Joined(path), Field(target) + (END + rest));
    FieldBack(target, END + rest);
    TagBack(END, rest);
    SplitJoined(path);
  }

  lemma FileBack(path: Path, mode: nat, content: Bytes, rest: Bytes)
    requires Fits(File(path, mode, content)) && mode < Capacity(4)
    ensures
      var tail := BigEndian(|content|, 8) + (BigEndian(mode, 4) + (content + (END + rest)));
      DecodeFile(Field(Joined(path)) + tail) == Some(Parsed(File(path, mode, content), rest))
  {
    var tail := BigEndian(|content|, 8) + (BigEndian(mode, 4) + (content + (END + rest)));
    FieldBack(Joined(path), tail);
    NumberBack(|content|, 8, BigEndian(mode, 4) + (content + (END + rest)));
    NumberBack(mode, 4, content + (END + rest));
    BytesBack(content, END + rest);
    TagBack(END, rest);
    SplitJoined(path);
  }

  lemma EntryBack(e: Entry, rest: Bytes)
    requires Fits(e)
    ensures DecodeEntry(Encode(e) + rest) == Some(Parsed(e, rest))
  {
    hide Field, BigEndian, Joined, DecodeSymlink, DecodeFile, Split;
    match e {
      case Symlink(path, target) =>
        var tail := Field(Joined(path)) + (Field(target) + (END + rest));
        assert Encode(e) + rest == SYMLINK + tail;
        TagBack(SYMLINK, tail);
        SymlinkBack(path, target, rest);
      case File(path, mode, content) =>
        ModeFits();
        var tail := Field(Joined(path)) + (BigEndian(|content|, 8) + (BigEndian(mode, 4) + (content + (END + rest))));
        assert Encode(e) + rest == FILE + tail;
        assert (FILE + tail)[6] == FILE[6] != SYMLINK[6];
        TagBack(FILE, tail);
        FileBack(path, mode, content, rest);
    }
  }

  lemma {:induction false} StreamFromFront(es: seq<Entry>)
    requires AllFit(es) && es != []
    ensures AllFit(es[1..]) && Stream(es) == Encode(es[0]) + Stream(es[1..])
  {
    hide Encode, Fits;
    if |es| == 1 {
      assert es[..0] == [] && es[1..] == [];
      assert Stream(es[..0]) + Encode(es[0]) == Encode(es[0]) == Encode(es[0]) + Stream(es[1..]);
    } else {
      var front := es[..|es| - 1];
      StreamFromFront(front);
      assert es[1..][..|es[1..]| - 1] == front[1..];
      assert Encode(es[0]) + (Stream(front[1..]) + Encode(es[|es| - 1]))
          == Encode(es[0]) + Stream(front[1..]) + Encode(es[|es| - 1]);
    }
  }

  lemma Appended(es: seq<Entry>, e: Entry)
    requires AllFit(es) && Fits(e)
    ensures AllFit(es + [e]) && Stream(es + [e]) == Stream(es) + Encode(e)
  {
    hide Fits, Encode;
    assert (es + [e])[..|es|] == es;
  }

  lemma DecodeFirst(e: Entry, rest: Bytes, es: seq<Entry>)
    requires Fits(e) && Decode(rest) == Some(es)
    ensures Decode(Encode(e) + rest) == Some([e] + es)
  {
    EntryBack(e, rest);
    NotEmpty(e);
    hide Encode, DecodeEntry, Fits;
    assert |Encode(e) + rest| > 0;
  }

  /** The decoder recovers every entry, whatever bytes paths, link targets and contents hold. */
  lemma {:induction false} DecodeStream(es: seq<Entry>)
    requires AllFit(es)
    ensures Decode(Stream(es)) == Some(es)
  {
    if es != [] {
      hide Encode, Fits, Stream, Decode;
      StreamFromFront(es);
      DecodeStream(es[1..]);
      DecodeFirst(es[0], Stream(es[1..]), es[1..]);
      assert es == [es[0]] + es[1..];
    }
  }

  lemma NotEmpty(e: Entry)
    requires Fits(e)
    ensures Encode(e) != []
  {
    hide Field, BigEndian, Joined;
    match e {
      case Symlink(path, target) => assert Encode(e)[|Encode(e)| - 1] == 0;
      case File(path, mode, content) => assert Encode(e)[|Encode(e)| - 1] == 0;
    }
  }

  // ----- One directory, one stream -----

  /** The children come sorted by path. */
  ghost predicate Listing(es: seq<Entry>) {
    PathOrder.Sorted(es, PathOf)
  }

  function PathOf(e: Entry): PathOrder.Path {
    e.path
  }

  /** Two directories feed the hash the same bytes exactly when they hold the same entries. */
  lemma SameBytesIffSameEntries(a: seq<Entry>, b: seq<Entry>)
    requires AllFit(a) && AllFit(b) && Listing(a) && Listing(b)
    ensures Stream(a) == Stream(b) <==> (forall e :: e in a <==> e in b)
  {
    DecodeStream(a);
    DecodeStream(b);
    if forall e :: e in a <==> e in b {
      PathOrder.SortedListingIsUnique(a, b, PathOf);
    }
  }

  // ----- The program -----

  /** A child of the directory as the program finds it: a file is read in chunks. */
  datatype Child =
    | Link(path: Path, target: Bytes)
    | Regular(path: Path, size: nat, mode: nat, chunks: seq<Bytes>, touched: bool)
    | Other

  function Joint(chunks: seq<Bytes>): Bytes {
    if chunks == [] then [] else Joint(chunks[..|chunks| - 1]) + chunks[|chunks| - 1]
  }

  /** A file that was read whole, while nobody changed it. */
  ghost predicate Steady(c: Child) {
    c.Regular? ==> |Joint(c.chunks)| == c.size && !c.touched
  }

  function EntryOf(c: Child): Entry
    requires !c.Other?
  {
    match c
    case Link(path, target) => Symlink(path, target)
    case Regular(path, _, mode, chunks, _) => File(path, mode % 4096, Joint(chunks))
  }

  function Entries(children: seq<Child>): seq<Entry> {
    if children == [] then []
    else
      var last := children[|children| - 1];
      Entries(children[..|children| - 1]) + if last.Other? then [] else [EntryOf(last)]
  }

  /** Lengths below 2^64, which the host file systems guarantee. */
  ghost predicate Storable(c: Child) {
    match c
    case Link(path, target) => ValidPath(path) && |Joined(path)| < Capacity(8) && |target| < Capacity(8)
    case Regular(path, size, _, _, _) => ValidPath(path) && |Joined(path)| < Capacity(8) && size < Capacity(8)
    case Other => true
  }

  /** Two children of one path and kind, with one target, or one content under the same mode bits. */
  ghost predicate Alike(c: Child, d: Child) {
    match (c, d)
    case (Link(path, target), Link(other, end)) => path == other && target == end
    case (Regular(path, _, mode, chunks, _), Regular(other, _, bits, parts, _)) =>
      path == other && mode % 4096 == bits % 4096 && Joint(chunks) == Joint(parts)
    case (_, _) => false
  }

  /** Every child that counts has its like among the others. */
  ghost predicate Matched(children: seq<Child>, others: seq<Child>) {
    forall c :: c in children && !c.Other? ==> exists d :: d in others && Alike(c, d)
  }

  lemma {:induction false} EntryInEntries(children: seq<Child>, e: Entry)
    ensures e in Entries(children) <==> exists c :: c in children && !c.Other? && EntryOf(c) == e
  {
    if children != [] {
      hide EntryOf;
      var front, last := children[..|children| - 1], children[|children| - 1];
      EntryInEntries(front, e);
      assert children == front + [last];
    }
  }

  lemma AlikeIsOneEntry(c: Child, d: Child)
    ensures Alike(c, d) <==> !c.Other? && !d.Other? && EntryOf(c) == EntryOf(d)
  {
  }

  lemma MatchedIsIncluded(a: seq<Child>, b: seq<Child>)
    ensures Matched(a, b) <==> forall e :: e in Entries(a) ==> e in Entries(b)
  {
    hide EntryOf, Entries, Alike;
    if Matched(a, b) {
      forall e | e in Entries(a)
        ensures e in Entries(b)
      {
        EntryInEntries(a, e);
        var c :| c in a && !c.Other? && EntryOf(c) == e;
        var d :| d in b && Alike(c, d);
        AlikeIsOneEntry(c, d);
        EntryInEntries(b, e);
      }
    } else {
      var c :| c in a && !c.Other? && forall d :: d in b ==> !Alike(c, d);
      EntryInEntries(a, EntryOf(c));
      EntryInEntries(b, EntryOf(c));
      forall d | d in b && !d.Other?
        ensures EntryOf(d) != EntryOf(c)
      {
        AlikeIsOneEntry(c, d);
      }
    }
  }

  /** A changed path, target, content or mode bit of any child changes the stream, and nothing else does. */
  lemma SameBytesIffSameChildren(a: seq<Child>, b: seq<Child>)
    requires AllFit(Entries(a)) && AllFit(Entries(b)) && Listing(Entries(a)) && Listing(Entries(b))
    ensures Stream(Entries(a)) == Stream(Entries(b)) <==> Matched(a, b) && Matched(b, a)
  {
    hide Matched, Entries, Stream, Listing, AllFit;
    SameBytesIffSameEntries(Entries(a), Entries(b));
    MatchedIsIncluded(a, b);
    MatchedIsIncluded(b, a);
  }

  lemma LinkParts(a: Bytes, b: Bytes, c: Bytes, d: Bytes, e: Bytes, f: Bytes, g: Bytes)
    ensures a + b + c + d + e + f + g == a + (b + (c + d) + (e + f) + g)
  {
  }

  lemma FileParts(a: Bytes, b: Bytes, c: Bytes, d: Bytes, e: Bytes, f: Bytes, g: Bytes, h: Bytes)
    ensures a + b + c + d + e + f + g + h == a + (b + (c + d) + e + f + g + h)
  {
  }

  class Hasher {
    var fed: Bytes

    constructor ()
      ensures fed == []
    {
      fed := [];
    }

    method Update(s: Bytes)
      modifies this
      ensures fed == old(fed) + s
    {
      fed := fed + s;
    }

    method FeedLink(path: Path, target: Bytes)
      requires Fits(Symlink(path, target))
      modifies this
      ensures fed == old(fed) + Encode(Symlink(path, target))
    {
      hide BigEndian, Joined, Capacity, ValidPath;
      Update(SYMLINK);
      Update(BigEndian(|Joined(path)|, 8));
      Update(Joined(path));
      Update(BigEndian(|target|, 8));
      Update(target);
      Update(END);
      LinkParts(old(fed), SYMLINK, BigEndian(|Joined(path)|, 8), Joined(path), BigEndian(|target|, 8), target, END);
    }

    /** One file, read to its end; false when the bytes read are not the file announced. */
    method FeedFile(path: Path, size: nat, mode: nat, chunks: seq<Bytes>, touched: bool) returns (ok: bool)
      requires ValidPath(path) && |Joined(path)| < Capacity(8) && size < Capacity(8)
      modifies this
      ensures ok <==> |Joint(chunks)| == size && !touched
      ensures ok ==> fed == old(fed) + Encode(File(path, mode % 4096, Joint(chunks)))
    {
      hide BigEndian, Joined, Capacity, ValidPath;
      ModeFits();
      Update(FILE);
      Update(BigEndian(|Joined(path)|, 8));
      Update(Joined(path));
      Update(BigEndian(size, 8));
      Update(BigEndian(mode % 4096, 4));
      ghost var head := fed;
      var read := FeedChunks(chunks);
      if read != size || touched {
        return false;
      }
      Update(END);
      FileParts(old(fed), FILE, BigEndian(|Joined(path)|, 8), Joined(path), BigEndian(size, 8),
                BigEndian(mode % 4096, 4), Joint(chunks), END);
      return true;
    }

    /** Reads one file to its end. */
    method FeedChunks(chunks: seq<Bytes>) returns (read: nat)
      modifies this
      ensures fed == old(fed) + Joint(chunks) && read == |Joint(chunks)|
    {
      read := 0;
      for i := 0 to |chunks|
        invariant read == |Joint(chunks[..i])|
        invariant fed == old(fed) + Joint(chunks[..i])
      {
        assert chunks[..i + 1][..i] == chunks[..i];
        Update(chunks[i]);
        read := read + |chunks[i]|;
      }
      assert chunks[..|chunks|] == chunks;
    }

    /** One child: skipped, fed, or refused. */
    method FeedChild(c: Child, ghost before: seq<Entry>) returns (ok: bool)
      requires Storable(c) && AllFit(before) && fed == Stream(before)
      modifies this
      ensures ok <==> Steady(c)
      ensures
        var after := before + if c.Other? then [] else [EntryOf(c)];
        ok ==> AllFit(after) && fed == Stream(after)
    {
      hide Encode, Joined, Joint, Capacity, ValidPath, Stream, AllFit;
      match c {
        case Other =>
          assert before + [] == before;
          return true;
        case Link(path, target) =>
          FeedLink(path, target);
          Appended(before, Symlink(path, target));
          return true;
        case Regular(path, size, mode, chunks, touched) =>
          ok := FeedFile(path, size, mode, chunks, touched);
          if ok {
            Appended(before, File(path, mode % 4096, Joint(chunks)));
          }
      }
    }

    /** `_artifact_digest` of a directory: true with the whole stream fed, false when it is refused. */
    method FeedDirectory(children: seq<Child>) returns (ok: bool)
      requires fed == []
      requires forall i :: 0 <= i < |children| ==> Storable(children[i])
      modifies this
      ensures ok <==> forall i :: 0 <= i < |children| ==> Steady(children[i])
      ensures ok ==> AllFit(Entries(children)) && fed == Stream(Entries(children))
    {
      hide Encode, Storable, Steady, AllFit, Stream, EntryOf;
      NoEntries();
      for i := 0 to |children|
        invariant forall k :: 0 <= k < i ==> Steady(children[k])
        invariant AllFit(Entries(children[..i])) && fed == Stream(Entries(children[..i]))
      {
        assert children[..i + 1][..i] == children[..i];
        var whole := FeedChild(children[i], Entries(children[..i]));
        if !whole {
          return false;
        }
      }
      assert children[..|children|] == children;
      return true;
    }
  }

  lemma NoEntries()
    ensures AllFit([]) && Stream([]) == []
  {
  }
}
