/** The "newc" archive format as src/cpio/src/lib.rs writes and reads it: numbers
    as eight hexadecimal digits, and the 110-byte header built from them. */
module Newc {
  import opened Strings

  type Byte = b: int | 0 <= b < 256
  type Bytes = seq<Byte>
  type U32 = n: int | 0 <= n < 0x1_0000_0000

  const NEWC_HDR_LEN := 110
  const PATH_MAX := 4096

  /** File type bits (`mode & S_IFMT`), shifted down by twelve. */
  const IFBLK := 6
  const IFCHR := 2
  const IFDIR := 4
  const IFREG := 8
  const IFLNK := 10

  function TypeOf(mode: U32): nat { (mode / 4096) % 16 }

  datatype Md = Md(nlink: U32, mode: U32, uid: U32, gid: U32, mtime: U32, rmajor: U32, rminor: U32, len: U32)

  /** Text as bytes. */
  function Encode(s: string): Bytes {
    if s == [] then [] else [s[0] as int % 256] + Encode(s[1..])
  }

  lemma {:induction false} EncodeConcat(a: string, b: string)
    ensures Encode(a + b) == Encode(a) + Encode(b)
    decreases |a|
  {
    if a == [] {
      assert a + b == b;
    } else {
      assert (a + b)[1..] == a[1..] + b;
      EncodeConcat(a[1..], b);
    }
  }

  lemma {:induction false} EncodeAt(s: string)
    ensures |Encode(s)| == |s|
    ensures forall i :: 0 <= i < |s| ==> Encode(s)[i] == s[i] as int % 256
    decreases |s|
  {
    if s != [] { EncodeAt(s[1..]); }
  }

  function Zeros(n: nat): (z: Bytes)
    ensures |z| == n && forall i :: 0 <= i < n ==> z[i] == 0
  {
    if n == 0 then [] else Zeros(n - 1) + [0]
  }

  // ---- hexadecimal fields -------------------------------------------------

  function HexDigit(d: nat): Byte
    requires d < 16
  {
    if d < 10 then 48 + d else 55 + d
  }

  /** `{:0kX}` for a number that fits. */
  function HexField(n: nat, k: nat): (f: Bytes)
    ensures |f| == k
  {
    if k == 0 then [] else HexField(n / 16, k - 1) + [HexDigit(n % 16)]
  }

  function HexValue(b: Byte): Option<nat> {
    if 48 <= b <= 57 then Some(b - 48)
    else if 65 <= b <= 70 then Some(b - 55)
    else if 97 <= b <= 102 then Some(b - 87)
    else None
  }

  function HexDigits(f: Bytes): Option<nat> {
    if f == [] then Some(0)
    else
      match (HexDigits(f[..|f| - 1]), HexValue(f[|f| - 1]))
      case (Some(hi), Some(lo)) => Some(16 * hi + lo)
      case _ => None
  }

  /** `u32::from_str_radix(f, 16)` on an eight-byte field: digits of either case,
      with an optional leading plus sign. */
  function ParseHex(f: Bytes): (r: Option<U32>)
    requires |f| == 8
  {
    var digits := if f[0] == 43 then f[1..] else f;
    HexBound(digits);
    assert Pow16(8) == 0x1_0000_0000 && Pow16(7) == 0x1000_0000 by { Pow16Values(); }
    match HexDigits(digits) case None => None case Some(n) => Some(n)
  }

  function Pow16(k: nat): (r: nat)
    ensures r >= 1
  {
    if k == 0 then 1 else 16 * Pow16(k - 1)
  }

  lemma Pow16Values()
    ensures Pow16(7) == 0x1000_0000 && Pow16(8) == 0x1_0000_0000
  {
    assert Pow16(2) == 256;
    assert Pow16(4) == 65536;
    assert Pow16(6) == 16777216;
  }

  lemma {:induction false} HexBound(f: Bytes)
    ensures HexDigits(f).Some? ==> HexDigits(f).value < Pow16(|f|)
    decreases |f|
  {
    if f != [] { HexBound(f[..|f| - 1]); }
  }

  lemma {:induction false} HexRoundTrip(n: nat, k: nat)
    requires n < Pow16(k)
    ensures HexDigits(HexField(n, k)) == Some(n)
    ensures forall i :: 0 <= i < k ==> HexField(n, k)[i] != 43
    decreases k
  {
    if k > 0 {
      HexRoundTrip(n / 16, k - 1);
      var f := HexField(n, k);
      assert f[..k - 1] == HexField(n / 16, k - 1);
      assert HexValue(HexDigit(n % 16)) == Some(n % 16);
    }
  }

  lemma {:induction false} FieldRoundTrip(n: U32)
    ensures ParseHex(HexField(n, 8)) == Some(n)
  {
    Pow16Values();
    HexRoundTrip(n, 8);
  }

  // ---- the header ---------------------------------------------------------

  const MAGIC: Bytes := [48, 55, 48, 55, 48, 49]
  const TRAILER: Bytes := [84, 82, 65, 73, 76, 69, 82, 33, 33, 33]

  function Fields(ns: seq<U32>): (f: Bytes)
    ensures |f| == 8 * |ns|
  {
    if ns == [] then [] else HexField(ns[0], 8) + Fields(ns[1..])
  }

  function Header(ino: U32, md: Md, filesize: U32, namesize: U32): (h: Bytes)
    ensures |h| == NEWC_HDR_LEN
  {
    MAGIC + Fields([ino, md.mode, md.uid, md.gid, md.nlink, md.mtime, filesize,
                    0, 0, md.rmajor, md.rminor, namesize, 0])
  }

  function Field(hdr: Bytes, i: nat): Option<U32>
    requires 8 * i + 8 <= |hdr|
  {
    ParseHex(hdr[8 * i..8 * i + 8])
  }

  /** `archive_read_newc_md`: the fields in use, by position; the name size is
      bounded, the skipped fields are not looked at. */
  function ReadMd(hdr: Bytes): Option<(Md, U32)>
    requires |hdr| == NEWC_HDR_LEN - 6
  {
    match (Field(hdr, 1), Field(hdr, 2), Field(hdr, 3), Field(hdr, 4), Field(hdr, 5), Field(hdr, 6),
           Field(hdr, 9), Field(hdr, 10), Field(hdr, 11))
    case (Some(mode), Some(uid), Some(gid), Some(nlink), Some(mtime), Some(len),
          Some(rmajor), Some(rminor), Some(namesize)) =>
      if namesize == 0 || namesize > PATH_MAX + 1 then None
      else Some((Md(nlink, mode, uid, gid, mtime, rmajor, rminor, len), namesize))
    case _ => None
  }

  lemma {:induction false} FieldAt(ns: seq<U32>, i: nat)
    requires i < |ns|
    ensures Field(Fields(ns), i) == Some(ns[i])
    decreases i
  {
    var f := Fields(ns);
    if i == 0 {
      assert f[0..8] == HexField(ns[0], 8);
      FieldRoundTrip(ns[0]);
    } else {
      FieldAt(ns[1..], i - 1);
      assert f[8 * i..8 * i + 8] == Fields(ns[1..])[8 * (i - 1)..8 * (i - 1) + 8];
    }
  }

  /** Header round trip: everything but the inode number is read back. */
  lemma {:induction false} HeaderRoundTrip(ino: U32, md: Md, filesize: U32, namesize: U32)
    ensures var h := Header(ino, md, filesize, namesize);
            && h[..6] == MAGIC
            && ReadMd(h[6..]) ==
               if namesize == 0 || namesize > PATH_MAX + 1 then None
               else Some((md.(len := filesize), namesize))
  {
    var ns: seq<U32> := [ino, md.mode, md.uid, md.gid, md.nlink, md.mtime, filesize,
                         0, 0, md.rmajor, md.rminor, namesize, 0];
    assert Header(ino, md, filesize, namesize)[6..] == Fields(ns);
    forall i | 0 <= i < 13 ensures Field(Fields(ns), i) == Some(ns[i]) { FieldAt(ns, i); }
  }

  /** The thirteen fields of a header in their order: inode, mode, uid, gid, links, time,
      file size, device, special device, name size, checksum. */
  lemma {:induction false} HeaderFields(ino: U32, md: Md, filesize: U32, namesize: U32)
    ensures var f := Header(ino, md, filesize, namesize)[6..];
            && Header(ino, md, filesize, namesize)[..6] == [48, 55, 48, 55, 48, 49]
            && Field(f, 0) == Some(ino) && Field(f, 1) == Some(md.mode) && Field(f, 2) == Some(md.uid)
            && Field(f, 3) == Some(md.gid) && Field(f, 4) == Some(md.nlink) && Field(f, 5) == Some(md.mtime)
            && Field(f, 6) == Some(filesize) && Field(f, 7) == Some(0) && Field(f, 8) == Some(0)
            && Field(f, 9) == Some(md.rmajor) && Field(f, 10) == Some(md.rminor)
            && Field(f, 11) == Some(namesize) && Field(f, 12) == Some(0)
  {
    hide Field, Fields, ReadMd;
    var ns: seq<U32> := [ino, md.mode, md.uid, md.gid, md.nlink, md.mtime, filesize,
                         0, 0, md.rmajor, md.rminor, namesize, 0];
    assert Header(ino, md, filesize, namesize)[6..] == Fields(ns);
    FieldAt(ns, 0); FieldAt(ns, 1); FieldAt(ns, 2); FieldAt(ns, 3); FieldAt(ns, 4); FieldAt(ns, 5); FieldAt(ns, 6);
    FieldAt(ns, 7); FieldAt(ns, 8); FieldAt(ns, 9); FieldAt(ns, 10); FieldAt(ns, 11); FieldAt(ns, 12);
  }

  /** A field with a byte that is no hexadecimal digit, but for a plus sign in front, is
      refused. */
  lemma {:induction false} BadFieldRefused(f: Bytes, i: nat)
    requires |f| == 8 && i < 8 && !(i == 0 && f[0] == 43)
    requires !(48 <= f[i] <= 57) && !(65 <= f[i] <= 70) && !(97 <= f[i] <= 102)
    ensures ParseHex(f) == None
  {
    hide HexDigits, HexValue;
    if f[0] == 43 { BadDigit(f[1..], i - 1); } else { BadDigit(f, i); }
  }

  lemma {:induction false} BadDigit(f: Bytes, i: nat)
    requires i < |f| && !(48 <= f[i] <= 57) && !(65 <= f[i] <= 70) && !(97 <= f[i] <= 102)
    ensures HexDigits(f) == None
    decreases |f|
  {
    if i < |f| - 1 { BadDigit(f[..|f| - 1], i); }
  }

  lemma TrailerText()
    ensures TRAILER == Encode("TRAILER!!!")
  {
    hide Encode;
    EncodeAt("TRAILER!!!");
  }
}
