/** The read-only file system image of mkromfs.py, and the reader it is made for. */
module Romfs {

  type Byte = x: int | 0 <= x < 256

  datatype Node = File(name: seq<Byte>, data: seq<Byte>) | Folder(name: seq<Byte>, children: seq<Node>)

  const DIRENT: nat := 16     // size of the struct 'IIII'
  const LIMIT: nat := 0x1_0000_0000

  // ---- words

  function Le32(v: nat): (b: seq<Byte>)
    ensures |b| == 4
  {
    [v % 256, v / 256 % 256, v / 65536 % 256, v / 16777216 % 256]
  }

  function Word(img: seq<Byte>, at: nat): (v: nat)
    requires at + 4 <= |img|
  {
    var a: int, b: int, c: int, d: int := img[at], img[at + 1], img[at + 2], img[at + 3];
    a + 256 * b + 65536 * c + 16777216 * d
  }

  lemma WordIs(img: seq<Byte>, at: nat, v: nat)
    requires at + 4 <= |img| && v < LIMIT && img[at..at + 4] == Le32(v)
    ensures Word(img, at) == v
  {
    var b := img[at..at + 4];
    assert img[at] == b[0] && img[at + 1] == b[1] && img[at + 2] == b[2] && img[at + 3] == b[3];
    Digits(v);
  }

  lemma Digits(v: nat)
    requires v < LIMIT
    ensures v == v % 256 + 256 * (v / 256 % 256) + 65536 * (v / 65536 % 256) + 16777216 * (v / 16777216 % 256)
  {
    assert v / 256 / 256 == v / 65536;
    assert v / 65536 / 256 == v / 16777216;
  }

  // ---- padding

  function Zeros(n: nat): (z: seq<Byte>)
    ensures |z| == n && forall i | 0 <= i < n :: z[i] == 0
  {
    if n == 0 then [] else [0] + Zeros(n - 1)
  }

  /** `bin_name`: at least one NUL, up to a boundary of 4. */
  function BinName(name: seq<Byte>): (b: seq<Byte>)
    ensures |b| % 4 == 0 && |name| < |b| <= |name| + 4 && b[..|name|] == name && b[|name|] == 0
  {
    name + Zeros(4 - |name| % 4)
  }

  function Rest(n: nat): (r: nat)
    ensures (n + r) % 4 == 0 && r < 4
  {
    if n % 4 == 0 then 0 else 4 - n % 4
  }

  function Pad(data: seq<Byte>): (b: seq<Byte>)
    ensures |b| == |data| + Rest(|data|) && b[..|data|] == data
  {
    data + Zeros(Rest(|data|))
  }

  // ---- layout

  function EntrySize(t: Node): (n: nat) { if t.File? then |t.data| else |t.children| }

  function Kind(t: Node): (k: nat) { if t.File? then 0 else 1 }

  /** The bytes of a file, or of the sub-image of a folder. */
  function Size(t: Node): (n: nat)
    ensures t.Folder? ==> n % 4 == 0
    decreases t, EntrySize(t), 1
  {
    match t
    case File(_, data) => |data|
    case Folder(_, cs) => DIRENT * |cs| + Blocks(t, |cs|)
  }

  /** The bytes of the names and contents of the first k children. */
  function Blocks(t: Node, k: nat): (n: nat)
    requires t.Folder? && k <= |t.children|
    ensures n % 4 == 0
    decreases t, k, 0
  {
    if k == 0 then 0 else
    var c := t.children[k - 1];
    Blocks(t, k - 1) + |BinName(c.name)| + Size(c) + Rest(Size(c))
  }

  /** The address of the name of child k in a folder at address base. */
  function NameAddr(t: Node, base: nat, k: nat): (a: nat)
    requires t.Folder? && k <= |t.children|
  {
    base + DIRENT * |t.children| + Blocks(t, k)
  }

  function DataAddr(t: Node, base: nat, k: nat): (a: nat)
    requires t.Folder? && k < |t.children|
  {
    NameAddr(t, base, k) + |BinName(t.children[k].name)|
  }

  /** The directory entry of c, whose name is at address v. */
  function Entry(c: Node, v: nat): (b: seq<Byte>)
    ensures |b| == DIRENT
  {
    Le32(Kind(c)) + Le32(v) + Le32(v + |BinName(c.name)|) + Le32(EntrySize(c))
  }

  /** `bin_data`: the contents of t at address base. */
  function Data(t: Node, base: nat): (b: seq<Byte>)
    ensures |b| == Size(t)
    decreases t, EntrySize(t), 1
  {
    match t
    case File(_, data) => data
    case Folder(_, cs) => Entries(t, base, |cs|) + Payload(t, base, |cs|)
  }

  function Entries(t: Node, base: nat, k: nat): (b: seq<Byte>)
    requires t.Folder? && k <= |t.children|
    ensures |b| == DIRENT * k
  {
    if k == 0 then [] else Entries(t, base, k - 1) + Entry(t.children[k - 1], NameAddr(t, base, k - 1))
  }

  function Payload(t: Node, base: nat, k: nat): (b: seq<Byte>)
    requires t.Folder? && k <= |t.children|
    ensures |b| == Blocks(t, k)
    decreases t, k, 0
  {
    if k == 0 then [] else
    var c := t.children[k - 1];
    Payload(t, base, k - 1) + BinName(c.name) + Pad(Data(c, DataAddr(t, base, k - 1)))
  }

  /** Every number that `struct.pack` is given fits in 32 bits. */
  predicate Fits(t: Node, base: nat)
    decreases t, EntrySize(t), 1
  {
    t.Folder? ==> FitsTo(t, base, |t.children|)
  }

  predicate FitsTo(t: Node, base: nat, k: nat)
    requires t.Folder? && k <= |t.children|
    decreases t, k, 0
  {
    k == 0 || (FitsTo(t, base, k - 1) && FitsAt(t, base, k - 1))
  }

  predicate FitsAt(t: Node, base: nat, k: nat)
    requires t.Folder? && k < |t.children|
    decreases t, k, 1
  {
    DataAddr(t, base, k) < LIMIT && EntrySize(t.children[k]) < LIMIT && Fits(t.children[k], DataAddr(t, base, k))
  }

  // ---- what an image says

  /** The bytes s stand at offset `at`. */
  ghost predicate At(img: seq<Byte>, at: int, s: seq<Byte>) {
    0 <= at && at + |s| <= |img| && img[at..at + |s|] == s
  }

  /** Offset of what the entry field at offset `at` points to, in an image loaded at address base. */
  function Target(img: seq<Byte>, base: nat, at: nat): (o: int)
    requires at + 4 <= |img|
  {
    Word(img, at) - base
  }

  /** The directory entry at offset e describes c: its name, and its contents behind that. */
  ghost predicate EntryHolds(img: seq<Byte>, base: nat, e: nat, c: Node)
    decreases c, EntrySize(c), 1
  {
    && e + DIRENT <= |img|
    && Word(img, e) == Kind(c) && Word(img, e + 12) == EntrySize(c)
    && At(img, Target(img, base, e + 4), BinName(c.name)) && Target(img, base, e + 4) % 4 == 0
    && e < Target(img, base, e + 8) && Target(img, base, e + 8) % 4 == 0
    && Holds(img, base, Target(img, base, e + 8), c)
  }

  /** The contents of t stand at offset o: the bytes of a file, or one entry for each child. */
  ghost predicate Holds(img: seq<Byte>, base: nat, o: nat, t: Node)
    decreases t, EntrySize(t), 0
  {
    match t
    case File(_, data) => At(img, o, data)
    case Folder(_, cs) => forall k: nat | k < |cs| :: EntryHolds(img, base, o + DIRENT * k, cs[k])
  }

  // ---- the parts of a folder's contents

  lemma {:induction false} BlocksGrow(t: Node, j: nat, k: nat)
    requires t.Folder? && j < k <= |t.children|
    ensures var c := t.children[j];
            Blocks(t, j) + |BinName(c.name)| + Size(c) + Rest(Size(c)) <= Blocks(t, k)
    decreases k
  {
    if j < k - 1 { BlocksGrow(t, j, k - 1); }
  }

  lemma {:induction false} EntriesAt(t: Node, base: nat, j: nat, k: nat)
    requires t.Folder? && j < k <= |t.children|
    ensures At(Entries(t, base, k), DIRENT * j, Entry(t.children[j], NameAddr(t, base, j)))
    decreases k
  {
    hide Entry;
    var b := Entries(t, base, k - 1);
    if j < k - 1 {
      EntriesAt(t, base, j, k - 1);
      AtAppend(b, DIRENT * j, Entry(t.children[j], NameAddr(t, base, j)), Entries(t, base, k)[|b|..]);
    }
  }

  lemma AtAppend(a: seq<Byte>, at: int, s: seq<Byte>, b: seq<Byte>)
    requires At(a, at, s)
    ensures At(a + b, at, s)
  {
    assert (a + b)[at..at + |s|] == a[at..at + |s|];
  }

  /** A part of a part. */
  lemma AtPart(a: seq<Byte>, o: int, s: seq<Byte>, at: int, r: seq<Byte>)
    requires At(a, o, s) && At(s, at, r)
    ensures At(a, o + at, r)
  {
    forall i | 0 <= i < |r| ensures a[o + at + i] == r[i] {
      assert a[o..o + |s|][at + i] == s[at + i] && s[at..at + |r|][i] == r[i];
    }
  }

  lemma AtTail(a: seq<Byte>, b: seq<Byte>)
    ensures At(a + b, |a|, b) && At(a + b, 0, a)
  {
  }

  ghost predicate ChildAt(t: Node, base: nat, k: nat, img: seq<Byte>, at: int)
    requires t.Folder? && k < |t.children|
  {
    var c := t.children[k];
    At(img, at, BinName(c.name)) && At(img, at + |BinName(c.name)|, Data(c, DataAddr(t, base, k)))
  }

  lemma {:induction false} PayloadAt(t: Node, base: nat, j: nat, k: nat)
    requires t.Folder? && j < k <= |t.children|
    ensures ChildAt(t, base, j, Payload(t, base, k), Blocks(t, j))
    decreases k
  {
    hide BinName, Pad, Data, At, Blocks, Size;
    var c := t.children[k - 1];
    var a, n, d := Payload(t, base, k - 1), BinName(c.name), Data(c, DataAddr(t, base, k - 1));
    assert Payload(t, base, k) == a + n + Pad(d);
    if j < k - 1 {
      PayloadAt(t, base, j, k - 1);
      var x := t.children[j];
      AtFront(a, n, Pad(d), Blocks(t, j), BinName(x.name));
      AtFront(a, n, Pad(d), Blocks(t, j) + |BinName(x.name)|, Data(x, DataAddr(t, base, j)));
    } else {
      AtBack(a, n, d);
    }
  }

  lemma AtFront(a: seq<Byte>, n: seq<Byte>, p: seq<Byte>, at: int, s: seq<Byte>)
    requires At(a, at, s)
    ensures At(a + n + p, at, s)
  {
    hide At;
    AtAppend(a, at, s, n);
    AtAppend(a + n, at, s, p);
  }

  lemma AtBack(a: seq<Byte>, n: seq<Byte>, d: seq<Byte>)
    ensures At(a + n + Pad(d), |a|, n) && At(a + n + Pad(d), |a| + |n|, d)
  {
    hide At, Pad;
    AtTail(a, n);
    AtAppend(a + n, |a|, n, Pad(d));
    AtTail(a + n, Pad(d));
    PadAt(d);
    AtPart(a + n + Pad(d), |a + n|, Pad(d), 0, d);
  }

  lemma PadAt(d: seq<Byte>)
    ensures At(Pad(d), 0, d)
  {
  }

  lemma {:induction false} FitsEach(t: Node, base: nat, j: nat, k: nat)
    requires t.Folder? && j < k <= |t.children| && FitsTo(t, base, k)
    ensures FitsAt(t, base, j)
    decreases k
  {
    if j < k - 1 { FitsEach(t, base, j, k - 1); }
  }

  // ---- the image describes the tree

  /** Wherever the contents of t, laid out for address base + o, stand at offset o, every entry in them is right. */
  lemma {:induction false} DataHolds(t: Node, img: seq<Byte>, base: nat, o: nat)
    requires Fits(t, base + o) && At(img, o, Data(t, base + o)) && o % 4 == 0
    ensures Holds(img, base, o, t)
    decreases t, 1
  {
    if t.Folder? {
      hide At, EntryHolds;
      forall k: nat | k < |t.children| ensures EntryHolds(img, base, o + DIRENT * k, t.children[k]) {
        ChildHolds(t, img, base, o, k);
      }
    }
  }

  lemma FitsFolder(t: Node, base: nat)
    requires t.Folder? && Fits(t, base)
    ensures FitsTo(t, base, |t.children|)
  {
  }

  lemma ChildHolds(t: Node, img: seq<Byte>, base: nat, o: nat, k: nat)
    requires t.Folder? && k < |t.children| && Fits(t, base + o) && At(img, o, Data(t, base + o)) && o % 4 == 0
    ensures EntryHolds(img, base, o + DIRENT * k, t.children[k])
    decreases t, 0
  {
    hide At, Entry, BinName, Data, Word, Le32, Holds, Entries, Payload;
    hide FitsTo, Blocks, Size, Pad, Fits, NameAddr, DataAddr;
    var c, n := t.children[k], |t.children|;
    FitsFolder(t, base + o);
    FitsEach(t, base + o, k, n);
    FolderParts(t, img, base, o, k);
    var na, da := NameAddr(t, base + o, k), DataAddr(t, base + o, k);
    AddrsAligned(t, base, o, k);
    EntryWords(img, o + DIRENT * k, c, na);
    DataHolds(c, img, base, da - base);
    var e := o + DIRENT * k;
    assert Target(img, base, e + 4) == na - base && Target(img, base, e + 8) == da - base;
  }

  lemma AddrsAligned(t: Node, base: nat, o: nat, k: nat)
    requires t.Folder? && k < |t.children| && o % 4 == 0
    ensures var na, da := NameAddr(t, base + o, k), DataAddr(t, base + o, k);
            && na >= base && (na - base) % 4 == 0 && da > base + o + DIRENT * k && (da - base) % 4 == 0
            && da == na + |BinName(t.children[k].name)|
  {
    hide Blocks, BinName;
  }

  /** The k-th entry, name and contents of a folder stand where the layout says. */
  lemma FolderParts(t: Node, img: seq<Byte>, base: nat, o: nat, k: nat)
    requires t.Folder? && k < |t.children| && At(img, o, Data(t, base + o))
    ensures At(img, o + DIRENT * k, Entry(t.children[k], NameAddr(t, base + o, k)))
    ensures At(img, NameAddr(t, base + o, k) - base, BinName(t.children[k].name))
    ensures At(img, DataAddr(t, base + o, k) - base, Data(t.children[k], DataAddr(t, base + o, k)))
  {
    hide At, Entry, BinName, Entries, Payload, Blocks, Size;
    var c, n := t.children[k], |t.children|;
    var e, p := Entries(t, base + o, n), Payload(t, base + o, n);
    AtTail(e, p);
    EntriesAt(t, base + o, k, n);
    AtPart(img, o, e + p, 0, e);
    AtPart(img, o, e, DIRENT * k, Entry(c, NameAddr(t, base + o, k)));
    PayloadAt(t, base + o, k, n);
    AtPart(img, o, e + p, |e|, p);
    AtPart(img, o + |e|, p, Blocks(t, k), BinName(c.name));
    AtPart(img, o + |e|, p, Blocks(t, k) + |BinName(c.name)|, Data(c, DataAddr(t, base + o, k)));
  }

  lemma EntryWords(img: seq<Byte>, e: nat, c: Node, v: nat)
    requires At(img, e, Entry(c, v)) && v + |BinName(c.name)| < LIMIT && EntrySize(c) < LIMIT
    ensures e + DIRENT <= |img|
    ensures Word(img, e) == Kind(c) && Word(img, e + 4) == v
    ensures Word(img, e + 8) == v + |BinName(c.name)| && Word(img, e + 12) == EntrySize(c)
  {
    hide Word, Le32, BinName, Entry;
    EntryFields(c, v);
    WordAt(img, e, Entry(c, v), 0, Kind(c));
    WordAt(img, e, Entry(c, v), 4, v);
    WordAt(img, e, Entry(c, v), 8, v + |BinName(c.name)|);
    WordAt(img, e, Entry(c, v), 12, EntrySize(c));
  }

  lemma EntryFields(c: Node, v: nat)
    requires v + |BinName(c.name)| < LIMIT && EntrySize(c) < LIMIT
    ensures var b := Entry(c, v);
            && |b| == DIRENT && b[0..4] == Le32(Kind(c)) && b[4..8] == Le32(v)
            && b[8..12] == Le32(v + |BinName(c.name)|) && b[12..16] == Le32(EntrySize(c))
  {
    hide Le32, BinName;
  }

  lemma WordAt(img: seq<Byte>, e: nat, b: seq<Byte>, k: nat, v: nat)
    requires At(img, e, b) && k + 4 <= |b| && v < LIMIT && b[k..k + 4] == Le32(v)
    ensures Word(img, e + k) == v
  {
    hide Word, Le32;
    var w := img[e + k..e + k + 4];
    assert |w| == 4 && w[0] == b[k] && w[1] == b[k + 1] && w[2] == b[k + 2] && w[3] == b[k + 3];
    assert w == b[k..k + 4];
    WordIs(img, e + k, v);
  }

  // ---- the whole image

  const ROOT_NAME: seq<Byte> := [47, 0, 0, 0]     // "/", padded

  /** `get_bin_data`: the root entry, its name, and the tree. */
  function Image(t: Node, base: nat): (img: seq<Byte>) {
    Le32(1) + Le32(base + DIRENT) + Le32(base + DIRENT + 4) + Le32(EntrySize(t)) + ROOT_NAME
        + Data(t, base + DIRENT + 4)
  }

  predicate ImageFits(t: Node, base: nat) {
    base + DIRENT + 4 < LIMIT && EntrySize(t) < LIMIT && Fits(t, base + DIRENT + 4)
  }

  ghost predicate ImageHolds(img: seq<Byte>, base: nat, t: Node) {
    && |img| >= DIRENT
    && Word(img, 0) == 1 && Word(img, 12) == EntrySize(t)
    && At(img, Target(img, base, 4), ROOT_NAME) && Target(img, base, 4) % 4 == 0
    && Target(img, base, 8) > 0 && Target(img, base, 8) % 4 == 0
    && Holds(img, base, Target(img, base, 8), t)
  }

  /** Every address in the image, minus the base, is aligned and points at what it stands for. */
  lemma ImageDescribes(t: Node, base: nat)
    requires ImageFits(t, base)
    ensures ImageHolds(Image(t, base), base, t)
  {
    hide Word, Le32, Holds, Data, Fits;
    var img := Image(t, base);
    var d := Data(t, base + DIRENT + 4);
    assert img[0..4] == Le32(1);
    assert img[4..8] == Le32(base + DIRENT);
    assert img[8..12] == Le32(base + DIRENT + 4);
    assert img[12..16] == Le32(EntrySize(t));
    WordIs(img, 0, 1);
    WordIs(img, 4, base + DIRENT);
    WordIs(img, 8, base + DIRENT + 4);
    WordIs(img, 12, EntrySize(t));
    assert img[16..20] == ROOT_NAME;
    assert img[20..] == d;
    DataHolds(t, img, base, DIRENT + 4);
  }

  /** An image that ends below the limit can be packed. */
  lemma {:induction false} SmallFits(t: Node, base: nat)
    requires base + Size(t) < LIMIT
    ensures Fits(t, base)
    decreases t, EntrySize(t) + 1
  {
    if t.Folder? { SmallFitsTo(t, base, |t.children|); }
  }

  lemma {:induction false} SmallFitsTo(t: Node, base: nat, k: nat)
    requires t.Folder? && k <= |t.children| && base + Size(t) < LIMIT
    ensures FitsTo(t, base, k)
    decreases t, k
  {
    if k > 0 {
      SmallFitsTo(t, base, k - 1);
      BlocksGrow(t, k - 1, |t.children|);
      SizeCovers(t.children[k - 1]);
      SmallFits(t.children[k - 1], DataAddr(t, base, k - 1));
    }
  }

  lemma SizeCovers(t: Node)
    ensures EntrySize(t) <= Size(t)
  {
  }

  // ---- the generator

  method Pack(kind: nat, name: nat, data: nat, size: nat) returns (ok: bool, b: seq<Byte>)
    ensures ok == (kind < LIMIT && name < LIMIT && data < LIMIT && size < LIMIT)
    ensures ok ==> b == Le32(kind) + Le32(name) + Le32(data) + Le32(size)
  {
    ok, b := kind < LIMIT && name < LIMIT && data < LIMIT && size < LIMIT, [];
    if ok { b := Le32(kind) + Le32(name) + Le32(data) + Le32(size); }
  }

  /** `bin_data`; it fails when a number does not fit its field. */
  method BinData(t: Node, base: nat) returns (ok: bool, b: seq<Byte>)
    ensures ok == Fits(t, base) && (ok ==> b == Data(t, base))
    decreases t
  {
    if t.File? { return true, t.data; }
    var dirents, payload := [], [];
    var v := base + DIRENT * |t.children|;
    var k := 0;
    while k < |t.children|
      invariant k <= |t.children| && v == NameAddr(t, base, k) && FitsTo(t, base, k)
      invariant dirents == Entries(t, base, k) && payload == Payload(t, base, k)
    {
      ok, v, dirents, payload := Append(t, base, k, v, dirents, payload);
      if !ok {
        NotFits(t, base, k, |t.children|);
        return false, [];
      }
      k := k + 1;
    }
    return true, dirents + payload;
  }

  /** Child k: its entry, and its name and contents at address v. */
  method Append(t: Node, base: nat, k: nat, v: nat, dirents: seq<Byte>, payload: seq<Byte>)
    returns (ok: bool, next: nat, es: seq<Byte>, ps: seq<Byte>)
    requires t.Folder? && k < |t.children| && v == NameAddr(t, base, k)
    requires dirents == Entries(t, base, k) && payload == Payload(t, base, k)
    ensures ok == FitsAt(t, base, k)
    ensures ok ==> next == NameAddr(t, base, k + 1) && es == Entries(t, base, k + 1) && ps == Payload(t, base, k + 1)
    decreases t, k
  {
    hide Data, BinName;
    next, es, ps := v, dirents, payload;
    var c := t.children[k];
    var name := BinName(c.name);
    var nameAddr := next;
    next := next + |name|;
    var data;
    ok, data := BinData(c, next);
    if !ok { return; }
    var dataAddr := next;
    data := Pad(data);
    next := next + |data|;
    var entry;
    ok, entry := Pack(Kind(c), nameAddr, dataAddr, EntrySize(c));
    es := es + entry;
    ps := ps + name + data;
  }

  lemma {:induction false} NotFits(t: Node, base: nat, j: nat, k: nat)
    requires t.Folder? && j < k <= |t.children| && !FitsAt(t, base, j)
    ensures !FitsTo(t, base, k)
  {
    if FitsTo(t, base, k) { FitsEach(t, base, j, k); }
  }

  method GetBinData(t: Node, base: nat) returns (ok: bool, img: seq<Byte>)
    ensures ok == ImageFits(t, base) && (ok ==> img == Image(t, base))
  {
    var v := base + DIRENT;
    var name := ROOT_NAME;
    var nameAddr := v;
    v := v + |name|;
    var data, tree;
    ok, data := Pack(1, nameAddr, v, EntrySize(t));
    if !ok { return false, []; }
    ok, tree := BinData(t, v);
    img := data + name + tree;
  }

  // ---- the reader

  datatype Found = Is(node: Node) | Absent

  /** The first child of that name, or the number of children. */
  function First(cs: seq<Node>, name: seq<Byte>, k: nat): (i: nat)
    requires k <= |cs|
    ensures k <= i <= |cs| && (i < |cs| ==> cs[i].name == name) && forall j | k <= j < i :: cs[j].name != name
    decreases |cs| - k
  {
    if k == |cs| || cs[k].name == name then k else First(cs, name, k + 1)
  }

  /** The node a path leads to. */
  function Walk(t: Node, path: seq<seq<Byte>>): (r: Found)
    requires path != []
    decreases path
  {
    if t.File? then Absent else
    var i := First(t.children, path[0], 0);
    if i == |t.children| then Absent
    else if |path| == 1 then Is(t.children[i])
    else Walk(t.children[i], path[1..])
  }

  predicate NoNul(s: seq<Byte>) { forall i | 0 <= i < |s| :: s[i] != 0 }

  /** No name in the tree contains a NUL. */
  predicate Clean(t: Node) {
    t.Folder? ==> forall c | c in t.children :: NoNul(c.name) && Clean(c)
  }

  /** The C string at offset o is `name`. */
  method NameIs(img: seq<Byte>, o: nat, name: seq<Byte>, ghost known: seq<Byte>) returns (same: bool)
    requires At(img, o, BinName(known)) && NoNul(known) && NoNul(name)
    ensures same == (name == known)
  {
    NameBytes(img, o, known);
    var i := 0;
    while i < |name| && img[o + i] == name[i]
      invariant i <= |name| && i <= |known| && name[..i] == known[..i]
    {
      assert i < |known|;
      i := i + 1;
    }
    same := i == |name| && img[o + i] == 0;
    assert same ==> name == name[..i] && known == known[..i];
  }

  lemma NameBytes(img: seq<Byte>, o: nat, known: seq<Byte>)
    requires At(img, o, BinName(known))
    ensures o + |known| < |img| && img[o + |known|] == 0 && forall i | 0 <= i < |known| :: img[o + i] == known[i]
  {
    var b := BinName(known);
    assert img[o..o + |b|] == b;
    forall i | 0 <= i < |known| ensures img[o + i] == known[i] { assert b[i] == b[..|known|][i]; }
    assert b[|known|] == img[o..o + |b|][|known|];
  }

  /** `dfs_romfs_lookup` below the root: the offset of the entry the path leads to. */
  method Lookup(img: seq<Byte>, base: nat, ghost t: Node, path: seq<seq<Byte>>) returns (found: bool, e: nat)
    requires ImageHolds(img, base, t) && t.Folder? && Clean(t) && |img| < LIMIT
    requires path != [] && forall s | s in path :: NoNul(s)
    ensures found <==> Walk(t, path).Is?
    ensures found ==> EntryHolds(img, base, e, Walk(t, path).node)
  {
    hide Holds, Walk, Word, At, BinName;
    e, found := 0, false;
    var dirent, size, i := Word(img, 8) - base, Word(img, 12), 0;
    ghost var cur := t;
    while true
      invariant i < |path| && cur.Folder? && Clean(cur) && size == |cur.children| && dirent >= 0
      invariant Holds(img, base, dirent, cur)
      invariant Walk(t, path) == Walk(cur, path[i..])
      decreases |path| - i
    {
      PathStep(cur, path, i);
      var index := Search(img, base, dirent, size, cur, path[i]);
      if index == size { return; }
      e := dirent + DIRENT * index;
      FolderEntry(img, base, dirent, cur, index);
      i := i + 1;
      if i == |path| {
        found := true;
        return;
      }
      if Word(img, e) != 1 { return; }
      dirent, size := Word(img, e + 8) - base, Word(img, e + 12);
      cur := cur.children[index];
    }
  }

  /** The entry of that name in a folder of `size` entries; each passes `check_dirent`. */
  method Search(img: seq<Byte>, base: nat, dirent: nat, size: nat, ghost cur: Node, name: seq<Byte>)
      returns (index: nat)
    requires cur.Folder? && Clean(cur) && size == |cur.children| && Holds(img, base, dirent, cur)
    requires NoNul(name) && |img| < LIMIT
    ensures index == First(cur.children, name, 0)
  {
    hide Word, BinName, Holds;
    index := 0;
    while index < size
      invariant index <= size && First(cur.children, name, index) == First(cur.children, name, 0)
    {
      var e := dirent + DIRENT * index;
      ghost var c := cur.children[index];
      FolderEntry(img, base, dirent, cur, index);
      SizeInside(img, base, e, c);
      assert Word(img, e) <= 1 && Word(img, e + 12) != LIMIT - 1;
      var same := NameIs(img, Word(img, e + 4) - base, name, c.name);
      if same { return; }
      index := index + 1;
    }
  }

  lemma FolderEntry(img: seq<Byte>, base: nat, o: nat, t: Node, k: nat)
    requires t.Folder? && k < |t.children| && Holds(img, base, o, t)
    ensures EntryHolds(img, base, o + DIRENT * k, t.children[k])
  {
  }

  lemma SizeInside(img: seq<Byte>, base: nat, e: nat, c: Node)
    requires EntryHolds(img, base, e, c) && |img| < LIMIT
    ensures Kind(c) <= 1 && EntrySize(c) < LIMIT - 1
  {
    if c.Folder? && |c.children| > 0 {
      var k: nat := |c.children| - 1;
      assert EntryHolds(img, base, Target(img, base, e + 8) + DIRENT * k, c.children[k]);
    }
  }

  lemma PathStep(t: Node, path: seq<seq<Byte>>, i: nat)
    requires i < |path| && t.Folder?
    ensures var k := First(t.children, path[i], 0);
            Walk(t, path[i..]) == if k == |t.children| then Absent
                                  else if i + 1 == |path| then Is(t.children[k])
                                  else if t.children[k].File? then Absent
                                  else Walk(t.children[k], path[i + 1..])
  {
    assert path[i..][1..] == path[i + 1..];
  }
}
