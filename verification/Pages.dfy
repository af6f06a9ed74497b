/** Two-level page tables in physical memory, copied on write from a template. */
module Pages {
  import opened Machine
  import opened Bits

  /** The number of a 4096-byte page of the 32-bit physical or virtual address space. */
  type page = x: nat | x < 0x10_0000

  /** Physical memory as 2^30 words. */
  type Ram = m: seq<u32> | |m| == 0x4000_0000 witness seq(0x4000_0000, _ => 0)

  /** Entry j of the directory or table that fills page g. */
  function Entry(m: Ram, g: page, j: nat): u32
    requires j < 1024
  {
    m[g * 1024 + j]
  }

  function PutEntry(m: Ram, g: page, j: nat, e: u32): (r: Ram)
    requires j < 1024
    ensures forall h: page, k: nat {:trigger Entry(r, h, k)} | k < 1024 ::
      Entry(r, h, k) == if h == g && k == j then e else Entry(m, h, k)
  {
    m[g * 1024 + j := e]
  }

  function CopyPage(m: Ram, src: page, dst: page): (r: Ram)
    ensures forall h: page, k: nat {:trigger Entry(r, h, k)} | k < 1024 ::
      Entry(r, h, k) == Entry(m, if h == dst then src else h, k)
  {
    m[..dst * 1024] + m[src * 1024..src * 1024 + 1024] + m[dst * 1024 + 1024..]
  }

  /** The page an entry points to: entry & ~0xfff, as a page number. */
  function Frame(e: u32): page { e / 4096 }

  /** Virtual addresses: page number and offset; directory index and table index of a page. */
  function VPage(v: u32): page { v / 4096 }
  function Offset(v: u32): nat { v % 4096 }
  function DirIndex(vp: page): (i: nat) ensures i < 1024 { vp / 1024 }
  function TableIndex(vp: page): (j: nat) ensures j < 1024 { vp % 1024 }

  lemma IndexPair(a: page, b: page)
    ensures DirIndex(a) == DirIndex(b) && TableIndex(a) == TableIndex(b) ==> a == b
  {
  }

  /** The frame a virtual page is mapped to. */
  function PageOf(m: Ram, dir: page, vp: page): page
  {
    Frame(Entry(m, Frame(Entry(m, dir, DirIndex(vp))), TableIndex(vp)))
  }

  /** get_physical */
  function Translate(m: Ram, dir: page, v: u32): u32
  {
    Frame(Entry(m, Frame(Entry(m, dir, v / 0x40_0000)), v % 0x40_0000 / 4096)) * 4096 + Offset(v)
  }

  lemma TranslateByPage(m: Ram, dir: page, v: u32)
    ensures Translate(m, dir, v) == PageOf(m, dir, VPage(v)) * 4096 + Offset(v)
  {
    assert v / 0x40_0000 == DirIndex(VPage(v));
    assert v % 0x40_0000 / 4096 == TableIndex(VPage(v));
  }

  /** Flag bits do not move a page-aligned address, nor the frame of an entry. */
  lemma OrFlags(e: u32, flags: u32)
    requires flags < 4096
    ensures Frame(Or32(e, flags)) == Frame(e)
  {
    Pow2Values();
    var h, l := e / 4096, e % 4096;
    OrLow(h, l, flags, 12);
    OrBelow(l, flags, 12);
  }

  /** The directory entry still equals the template's, so its table is shared and must be cloned. */
  predicate Shared(m: Ram, dir: page, tmpl: page, i: nat)
    requires i < 1024
  {
    Entry(m, dir, i) == Entry(m, tmpl, i)
  }

  /** map_physical: clone is the address of the page given for a new table. */
  function Mapped(m: Ram, dir: page, tmpl: page, vp: page, p: u32, flags: u32, clone: u32): (r: Ram)
  {
    var i := DirIndex(vp);
    var m1 :=
      if Shared(m, dir, tmpl, i) then
        PutEntry(CopyPage(m, Frame(Entry(m, tmpl, i)), Frame(clone)), dir, i, Or32(clone, flags))
      else
        PutEntry(m, dir, i, Or32(Entry(m, dir, i), flags));
    PutEntry(m1, Frame(Entry(m1, dir, i)), TableIndex(vp), Or32(p, flags))
  }

  // ----- who uses which page

  datatype Role = TemplateDirectory | TemplateTable(i: nat) | Directory | PrivateTable(dir: page, i: nat)

  ghost predicate HasRole(roles: map<page, Role>, g: page, r: Role) {
    g in roles && roles[g] == r
  }

  ghost predicate TemplateOk(m: Ram, tmpl: page, roles: map<page, Role>)
  {
    && HasRole(roles, tmpl, TemplateDirectory)
    && forall i: nat | i < 1024 :: HasRole(roles, Frame(Entry(m, tmpl, i)), TemplateTable(i))
  }

  /** Each entry of dir is the template's or leads to a table private to dir and to that entry. */
  ghost predicate DirectoryOk(m: Ram, dir: page, tmpl: page, roles: map<page, Role>)
  {
    && HasRole(roles, dir, Directory)
    && forall i: nat | i < 1024 ::
         Shared(m, dir, tmpl, i) || HasRole(roles, Frame(Entry(m, dir, i)), PrivateTable(dir, i))
  }

  ghost predicate World(m: Ram, tmpl: page, dirs: set<page>, roles: map<page, Role>) {
    TemplateOk(m, tmpl, roles) && forall d | d in dirs :: DirectoryOk(m, d, tmpl, roles)
  }

  ghost function RolesAfter(
      m: Ram, dir: page, tmpl: page, vp: page, clone: u32, roles: map<page, Role>): map<page, Role>
  {
    var i := DirIndex(vp);
    if Shared(m, dir, tmpl, i) then roles[Frame(clone) := PrivateTable(dir, i)] else roles
  }

  /**
    What map_physical may be asked: an aligned frame, flag bits, a live directory, and an unused page to clone
    into.
   */
  ghost predicate Asked(
      m: Ram, dir: page, tmpl: page, dirs: set<page>, roles: map<page, Role>, vp: page, p: u32, flags: u32, clone: u32)
  {
    && dir in dirs
    && p % 4096 == 0 && flags < 4096
    && (Shared(m, dir, tmpl, DirIndex(vp)) ==> Frame(clone) !in roles && clone % 4096 == 0)
  }

  ghost predicate CanMap(
      m: Ram, dir: page, tmpl: page, dirs: set<page>, roles: map<page, Role>, vp: page, p: u32, flags: u32, clone: u32)
  {
    World(m, tmpl, dirs, roles) && Asked(m, dir, tmpl, dirs, roles, vp, p, flags, clone)
  }

  /** The pages that r may hold different entries on: the directory entry itself and its private table. */
  lemma MapTouches(
      m: Ram, dir: page, tmpl: page, dirs: set<page>, roles: map<page, Role>, vp: page, p: u32, flags: u32, clone: u32)
    requires CanMap(m, dir, tmpl, dirs, roles, vp, p, flags, clone)
    ensures var r, i := Mapped(m, dir, tmpl, vp, p, flags, clone), DirIndex(vp);
      var t := Frame(Entry(r, dir, i));
      && HasRole(RolesAfter(m, dir, tmpl, vp, clone, roles), t, PrivateTable(dir, i))
      && t == (if Shared(m, dir, tmpl, i) then Frame(clone) else Frame(Entry(m, dir, i)))
      && (forall h: page, k: nat | k < 1024 && h != t && !(h == dir && k == i) :: Entry(r, h, k) == Entry(m, h, k))
      && (forall k: nat | k < 1024 && k != TableIndex(vp) :: Entry(r, t, k) == Entry(m, Frame(Entry(m, dir, i)), k))
      && Frame(Entry(r, t, TableIndex(vp))) == Frame(p)
  {
    hide Entry, PutEntry, CopyPage, Frame, Or32, TableIndex, DirIndex;
    var i := DirIndex(vp);
    OrFlags(clone, flags);
    OrFlags(Entry(m, dir, i), flags);
    OrFlags(p, flags);
  }

  /** No aliasing: every invariant of the page tables survives a mapping. */
  lemma MapKeepsWorld(
      m: Ram, dir: page, tmpl: page, dirs: set<page>, roles: map<page, Role>, vp: page, p: u32, flags: u32, clone: u32)
    requires CanMap(m, dir, tmpl, dirs, roles, vp, p, flags, clone)
    ensures World(Mapped(m, dir, tmpl, vp, p, flags, clone), tmpl, dirs, RolesAfter(m, dir, tmpl, vp, clone, roles))
  {
    hide Entry, Frame, Mapped, TableIndex, DirIndex;
    MapTouches(m, dir, tmpl, dirs, roles, vp, p, flags, clone);
  }

  /** A mapping is a one-point update of its own process, through both branches. */
  lemma MapIsOnePoint(
      m: Ram, dir: page, tmpl: page, dirs: set<page>, roles: map<page, Role>, vp: page, p: u32, flags: u32,
      clone: u32, w: page)
    requires CanMap(m, dir, tmpl, dirs, roles, vp, p, flags, clone)
    ensures PageOf(Mapped(m, dir, tmpl, vp, p, flags, clone), dir, w) == if w == vp then Frame(p) else PageOf(m, dir, w)
  {
    hide Entry, Frame, Mapped, TableIndex, DirIndex;
    MapTouches(m, dir, tmpl, dirs, roles, vp, p, flags, clone);
    IndexPair(vp, w);
  }

  /** The same in terms of get_physical: the addresses of one page move, with their offsets, and no others. */
  lemma MapMovesOnePage(
      m: Ram, dir: page, tmpl: page, dirs: set<page>, roles: map<page, Role>, vp: page, p: u32, flags: u32,
      clone: u32, v: u32)
    requires CanMap(m, dir, tmpl, dirs, roles, vp, p, flags, clone)
    ensures Translate(Mapped(m, dir, tmpl, vp, p, flags, clone), dir, v) ==
            if VPage(v) == vp then p + Offset(v) else Translate(m, dir, v)
  {
    hide Mapped, PageOf, World, Translate, Entry;
    MapIsOnePoint(m, dir, tmpl, dirs, roles, vp, p, flags, clone, VPage(v));
    TranslateByPage(m, dir, v);
    TranslateByPage(Mapped(m, dir, tmpl, vp, p, flags, clone), dir, v);
  }

  /**
    The system calls translate a buffer's first address only: the bytes behind it are the buffer's exactly when
    its pages lie in consecutive frames.
   */
  lemma BufferIsContiguous(m: Ram, dir: page, v: u32, count: nat)
    requires count > 0 && v + count <= TWO32
    ensures (forall a: u32 | v <= a < v + count :: Translate(m, dir, a) == Translate(m, dir, v) + a - v) <==>
            (forall w: page | VPage(v) <= w <= VPage(v + count - 1) ::
              PageOf(m, dir, w) == PageOf(m, dir, VPage(v)) + w - VPage(v))
  {
    hide PageOf, Translate, Entry;
    TranslateByPage(m, dir, v);
    if forall a: u32 | v <= a < v + count :: Translate(m, dir, a) == Translate(m, dir, v) + a - v {
      forall w: page | VPage(v) <= w <= VPage(v + count - 1)
        ensures PageOf(m, dir, w) == PageOf(m, dir, VPage(v)) + w - VPage(v)
      {
        var a: u32 := if w == VPage(v) then v else w * 4096;
        assert Translate(m, dir, a) == Translate(m, dir, v) + a - v;
        TranslateByPage(m, dir, a);
      }
    }
    if forall w: page | VPage(v) <= w <= VPage(v + count - 1) ::
      PageOf(m, dir, w) == PageOf(m, dir, VPage(v)) + w - VPage(v) {
      forall a: u32 | v <= a < v + count
        ensures Translate(m, dir, a) == Translate(m, dir, v) + a - v
      {
        TranslateByPage(m, dir, a);
        assert VPage(v) <= VPage(a) <= VPage(v + count - 1);
      }
    }
  }

  /** Isolation: other processes and the template translate as before, and share what they shared. */
  lemma MapIsolates(
      m: Ram, dir: page, tmpl: page, dirs: set<page>, roles: map<page, Role>, vp: page, p: u32, flags: u32,
      clone: u32, other: page)
    requires CanMap(m, dir, tmpl, dirs, roles, vp, p, flags, clone)
    requires other == tmpl || (other in dirs && other != dir)
    ensures var r := Mapped(m, dir, tmpl, vp, p, flags, clone);
      && (forall i: nat | i < 1024 :: Entry(r, other, i) == Entry(m, other, i))
      && (forall w: page :: PageOf(r, other, w) == PageOf(m, other, w))
  {
    hide Entry, Frame, Mapped, TableIndex, DirIndex;
    MapTouches(m, dir, tmpl, dirs, roles, vp, p, flags, clone);
  }

  /** Directory d and every table it leads to hold the same entries in m and in r. */
  ghost predicate SameTables(m: Ram, r: Ram, d: page) {
    forall i: nat | i < 1024 :: SameTable(m, r, d, i)
  }

  ghost predicate SameTable(m: Ram, r: Ram, d: page, i: nat)
    requires i < 1024
  {
    && Entry(r, d, i) == Entry(m, d, i)
    && forall j: nat | j < 1024 :: Entry(r, Frame(Entry(m, d, i)), j) == Entry(m, Frame(Entry(m, d, i)), j)
  }

  /** Other processes and the template keep all their entries, flag bits and all. */
  lemma MapSparesTables(
      m: Ram, dir: page, tmpl: page, dirs: set<page>, roles: map<page, Role>, vp: page, p: u32, flags: u32,
      clone: u32, other: page)
    requires CanMap(m, dir, tmpl, dirs, roles, vp, p, flags, clone)
    requires other == tmpl || (other in dirs && other != dir)
    ensures SameTables(m, Mapped(m, dir, tmpl, vp, p, flags, clone), other)
  {
    hide Entry, Frame, Mapped, TableIndex, DirIndex;
    var r := Mapped(m, dir, tmpl, vp, p, flags, clone);
    MapTouches(m, dir, tmpl, dirs, roles, vp, p, flags, clone);
    assert HasRole(roles, dir, Directory);
    forall i: nat | i < 1024 ensures SameTable(m, r, other, i) {
      assert HasRole(roles, Frame(Entry(m, tmpl, i)), TemplateTable(i));
      if other != tmpl {
        assert DirectoryOk(m, other, tmpl, roles);
        assert Shared(m, other, tmpl, i) || HasRole(roles, Frame(Entry(m, other, i)), PrivateTable(other, i));
      }
    }
  }
}
