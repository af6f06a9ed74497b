/** The construction of a process: its directory, its program image, its main thread. */
module Births {
  import opened Machine
  import opened Pages
  import opened PageRuns
  import opened Protection
  import opened Ownership

  /** The pages a birth takes; stack is the lower of the two stack blocks. */
  datatype Supply = Supply(dir: page, image: page, imageTable: page, stack: page, stackTable: page)
  {
    predicate InImage(g: page) { image <= g < image + IMAGE_PAGES }

    /** All different from one another. */
    predicate Distinct() {
      && image + IMAGE_PAGES <= 0x10_0000 && stack + 1 < 0x10_0000
      && !InImage(dir) && !InImage(imageTable) && !InImage(stack) && !InImage(stack + 1) && !InImage(stackTable)
      && dir != imageTable && dir != stack && dir != stack + 1 && dir != stackTable
      && imageTable != stack && imageTable != stack + 1 && imageTable != stackTable
      && stackTable != stack && stackTable != stack + 1
    }

    ghost predicate Among(g: page) {
      g == dir || InImage(g) || g == imageTable || g == stack || g == stack as int + 1 || g == stackTable
    }
  }

  /** What the process list names after i image pages: each block, and the table they need behind the first. */
  function ImageList(image: page, table: page, i: nat): seq<page>
    requires image + i <= 0x10_0000
  {
    if i == 0 then []
    else if i == 1 then [image, table]
    else ImageList(image, table, i - 1) + [image + (i - 1)]
  }

  function ImageMap(image: page, i: nat): map<page, page>
    requires image + i <= 0x10_0000 && i <= IMAGE_PAGES
  {
    if i == 0 then map[] else ImageMap(image, i - 1)[ENTRY_PAGE + (i - 1) := image + (i - 1)]
  }

  datatype Stage = Stage(kernel: Kernel, process: Process)

  /** The loop over the image pages, after i turns. */
  ghost function WithImage(k: Kernel, tmpl: page, p: Process, image: page, table: page, i: nat): Stage
    requires image + i <= 0x10_0000 && i <= IMAGE_PAGES
  {
    if i == 0 then Stage(k, p)
    else
      var before := WithImage(k, tmpl, p, image, table, i - 1);
      NextImagePage(before, tmpl, image + (i - 1), table, i - 1)
  }

  ghost function NextImagePage(s: Stage, tmpl: page, block: page, table: page, i: nat): Stage
    requires i < IMAGE_PAGES
  {
    Stage(PageKernel(s.kernel, tmpl, s.process, ENTRY_PAGE + i, block, table),
          PageProcess(s.kernel, tmpl, s.process, ENTRY_PAGE + i, block, table))
  }

  /** From the newborn p at k, i image pages are listed and mapped. */
  ghost predicate ImageOk(k: Kernel, tmpl: page, p: Process, image: page, table: page, i: nat, s: Stage)
    requires image + i <= 0x10_0000 && i <= IMAGE_PAGES
  {
    && Extends(k, s.kernel, tmpl, p.dir) && Built(s.kernel, tmpl, s.process)
    && s.process == p.(used := ImageList(image, table, i), vm := ImageMap(image, i))
    && (forall j: nat | j < 1024 && j != 2 :: Shared(s.kernel.m, p.dir, tmpl, j))
    && Shared(s.kernel.m, p.dir, tmpl, 2) == (i == 0)
    && ImageTakes(k, image, table, i, s.kernel)
  }

  /** Only the pages of the image and its table were taken. */
  ghost predicate ImageTakes(k: Kernel, image: page, table: page, i: nat, l: Kernel) {
    && (forall g: page | Unheld(k, g) && !(image <= g < image + i) && (i > 0 ==> g != table) :: Unheld(l, g))
    && l.used == k.used + PageRange(image, i) + (if i > 0 then {table} else {})
    && l.roles.Keys <= k.roles.Keys + {table}
  }

  lemma ImageTable(i: nat)
    requires i < IMAGE_PAGES
    ensures DirIndex(ENTRY_PAGE + i) == 2
  {
  }

  lemma PageKernelHolds(k: Kernel, tmpl: page, p: Process, vp: page, block: page, clone: page)
    ensures var l, shared := PageKernel(k, tmpl, p, vp, block, clone), Shared(k.m, p.dir, tmpl, DirIndex(vp));
      && l.used == k.used + {block} + (if shared then {clone} else {})
      && l.roles.Keys <= k.roles.Keys + {clone}
      && forall g: page | Unheld(k, g) && g != block && (shared ==> g != clone) :: Unheld(l, g)
  {
    hide Shared, Entry, DirIndex, Mapped;
    AlignedFrame(clone);
  }

  lemma ImageTakesNext(k: Kernel, tmpl: page, image: page, table: page, i: nat, s: Stage)
    requires i < IMAGE_PAGES && image + i + 1 <= 0x10_0000 && ImageTakes(k, image, table, i, s.kernel)
    requires Shared(s.kernel.m, s.process.dir, tmpl, 2) == (i == 0)
    ensures ImageTakes(k, image, table, i + 1, NextImagePage(s, tmpl, image + i, table, i).kernel)
  {
    hide Shared, DirIndex, Unheld, PageKernel, PageProcess, PageRange;
    ImageTable(i);
    var l := PageKernel(s.kernel, tmpl, s.process, ENTRY_PAGE + i, image + i, table);
    PageKernelHolds(s.kernel, tmpl, s.process, ENTRY_PAGE + i, image + i, table);
    RangeGrows(image, i);
    assert l.used == k.used + PageRange(image, i + 1) + {table};
  }

  lemma RangeGrows(g: page, count: nat)
    requires g + count < 0x10_0000
    ensures PageRange(g, count + 1) == PageRange(g, count) + {g + count}
  {
  }

  /** One turn of the loop. */
  lemma ImageStep(k: Kernel, tmpl: page, p: Process, image: page, table: page, i: nat, s: Stage)
    requires i < IMAGE_PAGES && image + i + 1 <= 0x10_0000 && !(image <= table < image + IMAGE_PAGES)
    requires KernelOk(k, tmpl) && ImageOk(k, tmpl, p, image, table, i, s)
    requires Unheld(k, image + i) && Unheld(k, table)
    ensures MayAdd(s.kernel, tmpl, s.process, ENTRY_PAGE + i, image + i, table)
    ensures ImageOk(k, tmpl, p, image, table, i + 1, NextImagePage(s, tmpl, image + i, table, i))
  {
    hide KernelOk, Built, Extends, Shared, DirIndex, Unheld, PageKernel, PageRange, ImageTakes;
    var block: page := image + i;
    var l := PageKernel(s.kernel, tmpl, s.process, ENTRY_PAGE + i, block, table);
    ImageTable(i);
    ImageRest(k, image, table, i, s.kernel);
    ExtendsBooks(k, s.kernel, tmpl, p.dir);
    AddPageOk(s.kernel, tmpl, s.process, ENTRY_PAGE + i, block, table);
    ImageTakesNext(k, tmpl, image, table, i, s);
    ExtendsTwice(k, s.kernel, l, tmpl, p.dir);
  }

  lemma ImageRest(k: Kernel, image: page, table: page, i: nat, l: Kernel)
    requires ImageTakes(k, image, table, i, l) && image + i + 1 <= 0x10_0000
    requires Unheld(k, image + i) && Unheld(k, table) && table != image + i && !(image <= table < image + i)
    ensures Unheld(l, image + i) && (i == 0 ==> Unheld(l, table))
  {
  }

  lemma ExtendsSelf(k: Kernel, tmpl: page, dir: page)
    requires KernelOk(k, tmpl)
    ensures Extends(k, k, tmpl, dir)
  {
    hide World, Sees, Closed, Entry, SameTables;
    forall d: page { SameTablesSelf(k.m, d); }
  }

  lemma ImageBegins(k: Kernel, tmpl: page, p: Process, image: page, table: page)
    requires KernelOk(k, tmpl) && Built(k, tmpl, p) && p.used == [] && p.vm == map[]
    requires forall i: nat | i < 1024 :: Shared(k.m, p.dir, tmpl, i)
    ensures ImageOk(k, tmpl, p, image, table, 0, Stage(k, p))
  {
    hide KernelOk, Built, Extends, Entry;
    ExtendsSelf(k, tmpl, p.dir);
  }

  lemma {:induction false} WithImageOk(k: Kernel, tmpl: page, p: Process, image: page, table: page, i: nat)
    requires image + IMAGE_PAGES <= 0x10_0000 && i <= IMAGE_PAGES && !(image <= table < image + IMAGE_PAGES)
    requires KernelOk(k, tmpl) && Built(k, tmpl, p) && p.used == [] && p.vm == map[]
    requires forall j: nat | j < 1024 :: Shared(k.m, p.dir, tmpl, j)
    requires Unheld(k, table) && forall g: page | image <= g < image + IMAGE_PAGES :: Unheld(k, g)
    ensures ImageOk(k, tmpl, p, image, table, i, WithImage(k, tmpl, p, image, table, i))
  {
    hide KernelOk, Built, ImageOk, NextImagePage, Unheld, Shared;
    if i == 0 {
      ImageBegins(k, tmpl, p, image, table);
    } else {
      WithImageOk(k, tmpl, p, image, table, i - 1);
      ImageStep(k, tmpl, p, image, table, i - 1, WithImage(k, tmpl, p, image, table, i - 1));
    }
  }

  lemma ListedGrows(gs: seq<page>, g: page)
    ensures Listed(gs + [g]) == Listed(gs) + {g}
  {
  }

  lemma {:induction false} ImageListPages(image: page, table: page, i: nat)
    requires image + i <= 0x10_0000 && 0 < i
    ensures Listed(ImageList(image, table, i)) == PageRange(image, i) + {table}
  {
    hide PageRange, Listed;
    RangeGrows(image, i - 1);
    if i == 1 {
      ListedGrows([], image);
      ListedGrows([image], table);
      assert Listed([]) == {} && PageRange(image, 0) == {} by { NothingListed(image); }
      assert [] + [image] == [image] && [image] + [table] == [image, table];
    } else {
      ImageListPages(image, table, i - 1);
      ListedGrows(ImageList(image, table, i - 1), image + (i - 1));
    }
  }

  lemma NothingListed(g: page)
    ensures Listed([]) == {} && PageRange(g, 0) == {}
  {
  }

  lemma {:induction false} ImageMapAt(image: page, i: nat, w: page)
    requires image + i <= 0x10_0000 && i <= IMAGE_PAGES && ENTRY_PAGE <= w < ENTRY_PAGE + i
    ensures w in ImageMap(image, i) && ImageMap(image, i)[w] == image + (w - ENTRY_PAGE)
  {
    if w < ENTRY_PAGE + (i - 1) { ImageMapAt(image, i - 1, w); }
  }

  /** The table is listed second, the blocks around it in order. */
  lemma {:induction false} ImageListAt(image: page, table: page, i: nat, j: nat)
    requires image + i <= 0x10_0000 && j < i
    ensures var gs := ImageList(image, table, i);
      |gs| == i + 1 && gs[1] == table && gs[if j == 0 then 0 else j + 1] == image + j
  {
    if i > 1 { ImageListAt(image, table, i - 1, if j < i - 1 then j else 0); }
  }

  /** The image is data. */
  lemma ImageIsData(k: Kernel, p: Process, image: page, table: page, l: Kernel)
    requires image + IMAGE_PAGES <= 0x10_0000 && !(image <= table < image + IMAGE_PAGES)
    requires ImageTakes(k, image, table, IMAGE_PAGES, l)
    requires forall g: page | image <= g < image + IMAGE_PAGES :: Unheld(k, g)
    requires p.used == ImageList(image, table, IMAGE_PAGES) && p.vm == ImageMap(image, IMAGE_PAGES)
    requires p.heap == HEAP_PAGE
    ensures DataOnly(l, p)
  {
    hide ImageList, ImageMap;
    ImageListPages(image, table, IMAGE_PAGES);
    forall w: page | IsListPage(p, w) ensures w in p.vm && p.vm[w] in p.used && p.vm[w] !in l.roles {
      ImageMapAt(image, IMAGE_PAGES, w);
      assert p.vm[w] in Listed(p.used) && Unheld(k, p.vm[w]);
    }
  }

  // ----- the whole birth

  ghost function Born(k: Kernel, tmpl: page, id: nat, b: Supply): Stage
    requires b.Distinct()
  {
    var s := WithImage(NewDirectory(k, tmpl, id, b.dir), tmpl, Newborn(id, b.dir), b.image, b.imageTable, IMAGE_PAGES);
    Stage(ThreadKernel(s.kernel, tmpl, s.process, STACK_PAGE, b.stack, b.stackTable),
          ThreadProcess(s.kernel, tmpl, s.process, STACK_PAGE, b.stack, b.stackTable, true))
  }

  /** No live process is concerned. */
  ghost predicate Spares(k: Kernel, l: Kernel, tmpl: page) {
    forall q: Process | q.dir in k.dirs :: Spared(k, l, tmpl, q)
  }

  lemma ExtendsSpares(k: Kernel, l: Kernel, tmpl: page, dir: page, q: Process)
    requires Extends(k, l, tmpl, dir) && q.dir in k.dirs && q.dir != dir
    ensures Spared(k, l, tmpl, q)
  {
  }

  lemma SparesThenExtends(k: Kernel, l: Kernel, n: Kernel, tmpl: page, dir: page)
    requires Spares(k, l, tmpl) && dir !in k.dirs && k.dirs <= l.dirs && Extends(l, n, tmpl, dir)
    ensures Spares(k, n, tmpl)
  {
    hide Spared, Extends;
    forall q: Process | q.dir in k.dirs ensures Spared(k, n, tmpl, q) {
      ExtendsSpares(l, n, tmpl, dir, q);
      SparedTwice(k, l, n, tmpl, q);
    }
  }

  lemma NewDirectorySpares(k: Kernel, tmpl: page, id: nat, d: page)
    requires KernelOk(k, tmpl) && Unheld(k, d)
    ensures var l := NewDirectory(k, tmpl, id, d);
      && KernelOk(l, tmpl) && Built(l, tmpl, Newborn(id, d)) && Spares(k, l, tmpl)
      && (forall i: nat | i < 1024 :: Shared(l.m, d, tmpl, i))
      && d !in k.dirs && l.dirs == k.dirs + {d} && l.used == k.used + {d} && l.identity == k.identity
      && forall g: page | Unheld(k, g) && g != d :: Unheld(l, g)
  {
    hide KernelOk, Built, Spared, Shared, CopyPage;
    NoDirYet(k, tmpl, d);
    NewDirectoryOk(k, tmpl, id, d, Newborn(id, d));
    forall q: Process | q.dir in k.dirs ensures Spared(k, NewDirectory(k, tmpl, id, d), tmpl, q) {
      NewDirectoryOk(k, tmpl, id, d, q);
    }
  }

  lemma MayStart(k: Kernel, tmpl: page, p: Process, base: page, clone: page)
    requires KernelOk(k, tmpl) && Built(k, tmpl, p) && base + 1 < 0x10_0000
    requires Unheld(k, base) && Unheld(k, base + 1) && Unheld(k, clone) && clone != base && clone != base + 1
    ensures MayThread(k, tmpl, p, STACK_PAGE, base, clone)
  {
    hide KernelOk, Built, Unheld, Shared;
  }

  lemma ThreadKernelUses(k: Kernel, tmpl: page, p: Process, stack: page, base: page, clone: page)
    requires MayThread(k, tmpl, p, stack, base, clone)
    ensures var shared := Shared(k.m, p.dir, tmpl, Table(stack));
      ThreadKernel(k, tmpl, p, stack, base, clone).used == k.used + {base, base + 1} + (if shared then {clone} else {})
  {
    hide KernelOk, Built, Unheld, Shared, DirIndex, Mapped;
    StackTable(stack);
    WithStackOk(k, tmpl, p, stack, base, clone);
    var k1 := WithStack(k, p.id, stack, base, Shared(k.m, p.dir, tmpl, Table(stack)));
    MapInOk(k1, tmpl, p.dir, stack - 1, base, clone, ThreadOf(p.id, stack, 1));
  }

  lemma SupplyUnheld(k: Kernel, b: Supply)
    requires b.Distinct() && forall g: page | b.Among(g) :: Unheld(k, g)
    ensures Unheld(k, b.dir) && Unheld(k, b.imageTable) && Unheld(k, b.stack) && Unheld(k, b.stack + 1)
    ensures Unheld(k, b.stackTable)
    ensures forall g: page | b.image <= g < b.image + IMAGE_PAGES :: Unheld(k, g)
  {
    assert b.Among(b.dir) && b.Among(b.imageTable) && b.Among(b.stack) && b.Among(b.stack + 1) && b.Among(b.stackTable);
    assert forall g: page | b.image <= g < b.image + IMAGE_PAGES :: b.Among(g);
  }

  ghost function SupplyPages(b: Supply): set<page>
    requires b.Distinct()
  {
    {b.dir, b.imageTable, b.stack, b.stack + 1, b.stackTable} + PageRange(b.image, IMAGE_PAGES)
  }

  /** The image from 8 MB on and the main thread on the first stack, all on the pages of b. */
  function Firstborn(id: nat, b: Supply): Process
    requires b.Distinct()
  {
    var main := Thread(STACK_PAGE, [b.stack, b.stackTable, b.stack + 1], true);
    Process(id, b.dir, ImageList(b.image, b.imageTable, IMAGE_PAGES), [main], HEAP_PAGE,
            WithStackPages(ImageMap(b.image, IMAGE_PAGES), STACK_PAGE, b.stack))
  }

  /**
    In bytes: the image lies from 8 MB on, the heap begins at 512 MB, and the first stack ends at 1 GB. Block i of
    the image is listed in its place, with the table behind the first.
   */
  lemma NewbornLayout(id: nat, b: Supply, i: nat)
    requires b.Distinct() && i < IMAGE_PAGES
    ensures var p := Firstborn(id, b);
      && p.heap * 4096 == 512 * 1024 * 1024 && |p.threads| == 1 && p.threads[0].stack * 4096 == 1024 * 1024 * 1024
      && 2048 + i in p.vm && p.vm[2048 + i] == b.image + i && 2048 * 4096 == 8 * 1024 * 1024
      && |p.used| == IMAGE_PAGES + 1 && p.used[1] == b.imageTable && p.used[if i == 0 then 0 else i + 1] == b.image + i
  {
    hide ImageMap, ImageList;
    ImageListAt(b.image, b.imageTable, IMAGE_PAGES, i);
    ImageMapAt(b.image, IMAGE_PAGES, 2048 + i);
  }

  /** The main thread completes the process, after which it and all others are in order. */
  lemma BornThread(k: Kernel, k1: Kernel, tmpl: page, s: Stage, base: page, clone: page)
    requires Spares(k, k1, tmpl) && s.process.dir !in k.dirs && k.dirs <= k1.dirs
    requires Extends(k1, s.kernel, tmpl, s.process.dir) && Built(s.kernel, tmpl, s.process)
    requires s.process.threads == [] && s.process.heap == HEAP_PAGE
    requires forall i: nat | i < 1024 && i != 2 :: Shared(s.kernel.m, s.process.dir, tmpl, i)
    requires base + 1 < 0x10_0000 && Unheld(s.kernel, base) && Unheld(s.kernel, base + 1) && Unheld(s.kernel, clone)
    requires clone != base && clone != base + 1 && DataOnly(s.kernel, s.process)
    ensures var l := ThreadKernel(s.kernel, tmpl, s.process, STACK_PAGE, base, clone);
      && KernelOk(l, tmpl) && Spares(k, l, tmpl)
      && ProcessOk(l, tmpl, ThreadProcess(s.kernel, tmpl, s.process, STACK_PAGE, base, clone, true))
      && l.used == s.kernel.used + {base, base + 1, clone}
      && forall i: nat | i < 1024 && i != 2 && i != 255 :: Shared(l.m, s.process.dir, tmpl, i)
  {
    hide KernelOk, Built, ProcessOk, Extends, Spares, Shared, Unheld, ThreadKernel, ThreadProcess;
    var l := ThreadKernel(s.kernel, tmpl, s.process, STACK_PAGE, base, clone);
    ExtendsBooks(k1, s.kernel, tmpl, s.process.dir);
    MayStart(s.kernel, tmpl, s.process, base, clone);
    MainThreadOk(s.kernel, tmpl, s.process, base, clone);
    ThreadOk(s.kernel, tmpl, s.process, STACK_PAGE, base, clone, true);
    ThreadKernelUses(s.kernel, tmpl, s.process, STACK_PAGE, base, clone);
    ExtendsBooks(s.kernel, l, tmpl, s.process.dir);
    ExtendsTwice(k1, s.kernel, l, tmpl, s.process.dir);
    SparesThenExtends(k, k1, l, tmpl, s.process.dir);
  }

  lemma ImageLeaves(used: set<page>, k: Kernel, b: Supply, l: Kernel)
    requires k.used == used + {b.dir} && b.Distinct() && ImageTakes(k, b.image, b.imageTable, IMAGE_PAGES, l)
    requires Unheld(k, b.stack) && Unheld(k, b.stack + 1) && Unheld(k, b.stackTable)
    ensures Unheld(l, b.stack) && Unheld(l, b.stack + 1) && Unheld(l, b.stackTable)
    ensures l.used + {b.stack, b.stack + 1, b.stackTable} == used + SupplyPages(b)
  {
  }

  /**
    From any sound kernel and pages nobody holds: the kernel stays sound, no process that was there notices,
    and the new one has its image from 8 MB on and its main thread on the first stack.
   */
  lemma BornOk(k: Kernel, tmpl: page, id: nat, b: Supply)
    requires KernelOk(k, tmpl) && b.Distinct() && forall g: page | b.Among(g) :: Unheld(k, g)
    ensures var s := Born(k, tmpl, id, b);
      && KernelOk(s.kernel, tmpl) && ProcessOk(s.kernel, tmpl, s.process) && Spares(k, s.kernel, tmpl)
      && s.process == Firstborn(id, b)
      && s.kernel.used == k.used + SupplyPages(b)
      && forall i: nat | i < 1024 && i != 2 && i != 255 :: Shared(s.kernel.m, b.dir, tmpl, i)
  {
    hide KernelOk, Built, ProcessOk, Extends, Spares, Shared, Unheld, NewDirectory, ThreadKernel, WithImage;
    hide ImageList, ImageMap, WithStackPages, SupplyPages, ImageTakes;
    var k1 := NewDirectory(k, tmpl, id, b.dir);
    var p := Newborn(id, b.dir);
    SupplyUnheld(k, b);
    NewDirectorySpares(k, tmpl, id, b.dir);
    var s := WithImage(k1, tmpl, p, b.image, b.imageTable, IMAGE_PAGES);
    WithImageOk(k1, tmpl, p, b.image, b.imageTable, IMAGE_PAGES);
    ImageLeaves(k.used, k1, b, s.kernel);
    ImageIsData(k1, s.process, b.image, b.imageTable, s.kernel);
    BornThread(k, k1, tmpl, s, b.stack, b.stackTable);
  }
}
