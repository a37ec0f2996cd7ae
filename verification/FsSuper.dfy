/** The blocks in front of the inodes: the boot block, the super block and the log, as mkfs/mkfs.c makes
    them and as readsb in kernel/fs.c reads them back. */
module FsSuper {
  import opened FsLayout
  import opened FsBytes

  const FSMAGIC: nat := 0x10203040

  /** A layout with room for the boot block, the super block and a log, whose numbers fit their fields. */
  predicate Storable(sb: Super) {
    sb.Ok() && 2 <= sb.inodestart && sb.ninodes < UINT
  }

  /** struct superblock.  The log takes the blocks from 2 up to the inodes, the data those after the bitmap. */
  function SuperWords(sb: Super): (ws: seq<nat>)
    requires Storable(sb)
    ensures |ws| == 8 && forall k :: 0 <= k < 8 ==> ws[k] < UINT
  {
    [FSMAGIC, sb.size, sb.size - sb.datastart, sb.ninodes, sb.inodestart - 2, 2, sb.inodestart, sb.bmapstart]
  }

  function SuperBlock(sb: Super): (b: Block)
    requires Storable(sb)
    ensures |b| == BSIZE
  {
    PutWords(ZeroBlock(), 0, SuperWords(sb))
  }

  predicate HasMagic(b: Block)
    requires |b| == BSIZE
  {
    Word(b, 0) == FSMAGIC
  }

  /** The layout that a super block describes. */
  function ReadSuper(b: Block): Super
    requires |b| == BSIZE
  {
    Super(Word(b, 1), Word(b, 3), Word(b, 6), Word(b, 7),
          if Word(b, 2) <= Word(b, 1) then Word(b, 1) - Word(b, 2) else 0)
  }

  /** The kernel finds the layout that mkfs chose. */
  lemma SuperRoundTrip(sb: Super)
    requires Storable(sb)
    ensures HasMagic(SuperBlock(sb)) && ReadSuper(SuperBlock(sb)) == sb
    ensures Word(SuperBlock(sb), 4) == sb.inodestart - 2 && Word(SuperBlock(sb), 5) == 2
  {
    var ws := SuperWords(sb);
    forall k | 0 <= k < 8
      ensures Word(SuperBlock(sb), k) == ws[k]
    {
      WordOfPutWords(ZeroBlock(), 0, ws, k);
    }
    assert Word(SuperBlock(sb), 0) == ws[0] && Word(SuperBlock(sb), 1) == ws[1] && Word(SuperBlock(sb), 2) == ws[2];
    assert Word(SuperBlock(sb), 3) == ws[3] && Word(SuperBlock(sb), 6) == ws[6] && Word(SuperBlock(sb), 7) == ws[7];
  }

  /** fsinit up to initlog.  On an image with what mkfs puts in front it finds mkfs's layout. */
  method Fsinit(img: seq<Block>) returns (panicked: bool, sb: Super)
    requires 1 < |img| && |img[1]| == BSIZE
    ensures panicked <==> !HasMagic(img[1])
    ensures forall sb0 {:trigger FrontOk(sb0, img)} :: FrontOk(sb0, img) ==> !panicked && sb == sb0
  {
    var bp := img[1];
    sb := ReadSuper(bp);
    panicked := Word(bp, 0) != FSMAGIC;
    forall sb0 | FrontOk(sb0, img)
      ensures !panicked && sb == sb0
    {
      SuperRoundTrip(sb0);
    }
  }

  /** What mkfs puts in front of the inodes: nothing but the super block, so that the log is empty. */
  ghost predicate FrontOk(sb: Super, img: seq<Block>) {
    && Storable(sb) && |img| == sb.size
    && forall b {:trigger img[b]} :: 0 <= b < sb.inodestart ==> img[b] == if b == 1 then SuperBlock(sb) else ZeroBlock()
  }

  // ---- directory entries ----

  const DIRSIZ: nat := 14

  /** strncpy into a zeroed field of 14 bytes. */
  function NameField(name: seq<Byte>): (r: seq<Byte>)
    ensures |r| == DIRSIZ
    ensures forall k :: 0 <= k < DIRSIZ ==> r[k] == if k < |name| then name[k] else 0
  {
    seq(DIRSIZ, k requires 0 <= k < DIRSIZ => if k < |name| then name[k] else 0)
  }

  /** struct dirent */
  function Dirent(inum: nat, name: seq<Byte>): (r: seq<Byte>)
    ensures |r| == 16
  {
    [inum % 256, inum / 256 % 256] + NameField(name)
  }

  /** The name in an entry ends at the first zero byte or after 14. */
  function NameOf(field: seq<Byte>): (r: seq<Byte>) {
    if field == [] || field[0] == 0 then [] else [field[0]] + NameOf(field[1..])
  }

  lemma {:induction false} NameOfPadded(name: seq<Byte>, pad: seq<Byte>)
    requires 0 !in name && (pad == [] || pad[0] == 0)
    ensures NameOf(name + pad) == name
  {
    if name == [] {
      assert name + pad == pad;
    } else {
      assert (name + pad)[1..] == name[1..] + pad;
      assert name[0] in name;
      NameOfPadded(name[1..], pad);
    }
  }

  /** An entry gives back its inode number and its name, the name cut off after 14 bytes. */
  lemma DirentRoundTrip(inum: nat, name: seq<Byte>)
    requires inum < 65536 && 0 !in name
    ensures var e := Dirent(inum, name); var b0: int, b1: int := e[0], e[1];
      b0 + 256 * b1 == inum && NameOf(e[2..]) == if |name| <= DIRSIZ then name else name[..DIRSIZ]
  {
    var e, f := Dirent(inum, name), NameField(name);
    assert e[2..] == f;
    if |name| <= DIRSIZ {
      assert f == name + f[|name|..];
      NameOfPadded(name, f[|name|..]);
    } else {
      assert f == name[..DIRSIZ] + [];
      NameOfPadded(name[..DIRSIZ], []);
    }
  }
}
