/** Descriptors of file mappings (criu/files-reg.c, open_filemap, and criu/mem.c, open_vmas and premap_priv_vmas). */
module FilemapCtx {
  import opened Options
  import opened DescriptorLog

  /** How an area gets its descriptor: not at all, from open_filemap, or from another opener of its own. */
  datatype Opener = NoOpen | Filemap | Other

  datatype Vma = Vma(opener: Opener, file: File)

  /** What an area is left with: its descriptor, and whether the restorer is to close it (VMA_CLOSE). */
  datatype Use = Use(fd: Option<nat>, close: bool)

  function FilesOf(vmas: seq<Vma>): seq<File> { seq(|vmas|, i requires 0 <= i < |vmas| => vmas[i].file) }

  // ----- who shares a descriptor

  predicate Shares(uses: seq<Use>, j: nat, l: nat)
    requires j < |uses| && l < |uses|
  {
    uses[j].fd.Some? && uses[l].fd == uses[j].fd
  }

  /** No later area has the descriptor of area j. */
  ghost predicate LastUser(uses: seq<Use>, j: nat)
    requires j < |uses|
  {
    uses[j].fd.Some? && forall l :: j < l < |uses| ==> !Shares(uses, j, l)
  }

  /** Area l is the next file mapping after area j, of the same file in the same way. */
  ghost predicate SameFileNext(vmas: seq<Vma>, j: nat, l: nat)
    requires j < l < |vmas|
  {
    && vmas[j].opener == Filemap && vmas[l].opener == Filemap && vmas[j].file == vmas[l].file
    && forall m :: j < m < l ==> vmas[m].opener != Filemap
  }

  /** Areas j and l share a descriptor: they map the same file in the same way, and so do all file mappings between. */
  ghost predicate Run(vmas: seq<Vma>, uses: seq<Use>, j: nat, l: nat)
    requires j < l < |vmas| && |uses| == |vmas|
  {
    forall m :: j <= m <= l && (vmas[m].opener == Filemap || m == j || m == l) ==>
      vmas[m].opener == Filemap && vmas[m].file == vmas[j].file && uses[m].fd == uses[j].fd
  }

  /** Among the first i areas exactly runs of mappings of one file share a descriptor. */
  ghost predicate Grouped(vmas: seq<Vma>, uses: seq<Use>, i: nat)
    requires i <= |vmas| == |uses|
  {
    && (forall j, l :: 0 <= j < l < i && Shares(uses, j, l) ==> Run(vmas, uses, j, l))
    && (forall j, l :: 0 <= j < l < i && SameFileNext(vmas, j, l) ==> Shares(uses, j, l))
  }

  /** Area i needs an open call: it has another opener, or the file mapping before it is of something else. */
  ghost predicate OpensAnew(vmas: seq<Vma>, i: nat)
    requires i < |vmas|
  {
    vmas[i].opener != NoOpen && forall j :: 0 <= j < i ==> !SameFileNext(vmas, j, i)
  }

  /** Every area that opens has a descriptor, exactly runs of mappings of one file share one, and the restorer is to
      close it after exactly the last area that has it. */
  ghost predicate Released(vmas: seq<Vma>, uses: seq<Use>) {
    && |uses| == |vmas| && Grouped(vmas, uses, |vmas|)
    && (forall j :: 0 <= j < |vmas| ==> (uses[j].fd.Some? <==> vmas[j].opener != NoOpen))
    && (forall j :: 0 <= j < |vmas| ==> (uses[j].close <==> LastUser(uses, j)))
  }

  // ----- how descriptors and marks follow the areas

  /** The first i areas are opened: descriptors below `next`, later areas without. */
  ghost predicate Opened(vmas: seq<Vma>, uses: seq<Use>, i: nat, next: nat) {
    && i <= |vmas| == |uses|
    && (forall j :: 0 <= j < |vmas| ==> (uses[j].fd.Some? <==> j < i && vmas[j].opener != NoOpen))
    && (forall j :: 0 <= j < i && uses[j].fd.Some? ==> uses[j].fd.value < next)
  }

  /** All last users are marked but the area the context refers to. */
  ghost predicate Marked(uses: seq<Use>, current: Option<nat>) {
    forall j :: 0 <= j < |uses| ==> (uses[j].close <==> LastUser(uses, j) && current != Some(j))
  }

  /** The context refers to the last file mapping so far. */
  ghost predicate Current(vmas: seq<Vma>, uses: seq<Use>, i: nat, current: Option<nat>, flags: nat, desc: Option<nat>,
                          fd: Option<nat>)
    requires i <= |vmas| == |uses|
  {
    && (current.Some? <==> desc.Some?) && (desc.Some? <==> fd.Some?)
    && (current.Some? ==> current.value < i && vmas[current.value].opener == Filemap && uses[current.value].fd == fd)
    && (current.Some? ==> vmas[current.value].file == File(flags, desc.value))
    && (forall j :: 0 <= j < i && vmas[j].opener == Filemap ==> current.Some? && j <= current.value)
  }

  /** What is known of the areas when the first i are opened. */
  ghost predicate Areas(vmas: seq<Vma>, uses: seq<Use>, i: nat, next: nat, current: Option<nat>, flags: nat,
                        desc: Option<nat>, fd: Option<nat>) {
    Opened(vmas, uses, i, next) && Grouped(vmas, uses, i) && Current(vmas, uses, i, current, flags, desc, fd)
  }

  /** The area the context refers to is the last user of its descriptor. */
  lemma CurrentIsLast(vmas: seq<Vma>, uses: seq<Use>, i: nat, next: nat, p: nat, flags: nat, desc: Option<nat>,
                      fd: Option<nat>)
    requires Areas(vmas, uses, i, next, Some(p), flags, desc, fd)
    ensures LastUser(uses, p)
  {
    forall l | p < l < |uses| ensures !Shares(uses, p, l) { }
  }

  /** Marks do not matter for who shares what. */
  lemma SameFds(vmas: seq<Vma>, uses: seq<Use>, uses': seq<Use>, i: nat)
    requires |uses| == |uses'| == |vmas| && i <= |vmas| && forall j :: 0 <= j < |uses| ==> uses'[j].fd == uses[j].fd
    ensures forall j :: 0 <= j < |uses| ==> (LastUser(uses', j) <==> LastUser(uses, j))
    ensures Grouped(vmas, uses, i) ==> Grouped(vmas, uses', i)
  {
    forall j | 0 <= j < |uses| ensures LastUser(uses', j) <==> LastUser(uses, j) {
      assert forall l :: j < l < |uses| ==> (Shares(uses', j, l) <==> Shares(uses, j, l));
    }
    if Grouped(vmas, uses, i) {
      forall j, l | 0 <= j < l < i && Shares(uses', j, l) ensures Run(vmas, uses', j, l) {
        assert Shares(uses, j, l) && Run(vmas, uses, j, l);
      }
    }
  }

  /** What filemap_ctx_fini makes of the marks. */
  function Finished(uses: seq<Use>, current: Option<nat>): seq<Use> {
    if current.Some? && current.value < |uses| then uses[current.value := uses[current.value].(close := true)] else uses
  }

  lemma FinishedAreas(vmas: seq<Vma>, uses: seq<Use>, i: nat, next: nat, current: Option<nat>, flags: nat,
                      desc: Option<nat>, fd: Option<nat>)
    requires Areas(vmas, uses, i, next, current, flags, desc, fd)
    ensures Areas(vmas, Finished(uses, current), i, next, current, flags, desc, fd)
    ensures Marked(uses, current) ==> Marked(Finished(uses, current), None)
  {
    SameFds(vmas, uses, Finished(uses, current), i);
    if current.Some? { CurrentIsLast(vmas, uses, i, next, current.value, flags, desc, fd); }
  }

  /** Area i gets a descriptor of its own, or none. */
  lemma AddOwn(vmas: seq<Vma>, uses: seq<Use>, uses': seq<Use>, i: nat, next: nat, next': nat, use: Use)
    requires Opened(vmas, uses, i, next) && i < |vmas| && Grouped(vmas, uses, i) && uses' == uses[i := use]
    requires if vmas[i].opener == NoOpen then use.fd == None && next' == next
             else use.fd == Some(next) && next' == next + 1
    requires forall j :: 0 <= j < i ==> !SameFileNext(vmas, j, i)
    ensures Opened(vmas, uses', i + 1, next') && Grouped(vmas, uses', i + 1)
  {
    forall j, l | 0 <= j < l < i + 1 && Shares(uses', j, l) ensures Run(vmas, uses', j, l) {
      assert l < i && Shares(uses, j, l) && Run(vmas, uses, j, l);
    }
  }

  lemma MarkOwn(vmas: seq<Vma>, uses: seq<Use>, uses': seq<Use>, i: nat, next: nat, use: Use, current: Option<nat>,
                current': Option<nat>)
    requires Opened(vmas, uses, i, next) && i < |vmas| && Marked(uses, current) && uses' == uses[i := use]
    requires use.fd == None || use.fd == Some(next)
    requires current' == current || (current == None && current' == Some(i))
    requires (use.close <==> use.fd.Some? && current' != Some(i)) && (current.Some? ==> current.value < i)
    ensures Marked(uses', current')
  {
    forall j | 0 <= j < |uses'| && j != i ensures LastUser(uses', j) <==> LastUser(uses, j) {
      forall l | j < l < |uses| ensures Shares(uses', j, l) <==> Shares(uses, j, l) { }
    }
    assert use.fd.Some? <==> LastUser(uses', i);
  }

  /** Area i maps the current file in the same way. */
  lemma AddShared(vmas: seq<Vma>, uses: seq<Use>, uses': seq<Use>, i: nat, next: nat, p: nat, flags: nat,
                  desc: Option<nat>, fd: Option<nat>)
    requires Areas(vmas, uses, i, next, Some(p), flags, desc, fd) && i < |vmas|
    requires vmas[i].opener == Filemap && Some(vmas[i].file.desc) == desc && vmas[i].file.flags == flags
    requires uses' == uses[i := Use(fd, false)]
    ensures Areas(vmas, uses', i + 1, next, Some(i), flags, desc, fd)
  {
    CurrentIsLast(vmas, uses, i, next, p, flags, desc, fd);
    forall j, l | 0 <= j < l < i + 1 && Shares(uses', j, l) ensures Run(vmas, uses', j, l) {
      if l < i { assert Shares(uses, j, l) && Run(vmas, uses, j, l); }
      else { SharedRun(vmas, uses, uses', i, p, j, flags, desc, fd); }
    }
  }

  lemma NotAfterLast(uses: seq<Use>, p: nat, j: nat)
    requires p < j < |uses| && LastUser(uses, p)
    ensures uses[j].fd != uses[p].fd
  {
    assert !Shares(uses, p, j);
  }

  lemma SharedRun(vmas: seq<Vma>, uses: seq<Use>, uses': seq<Use>, i: nat, p: nat, j: nat, flags: nat,
                  desc: Option<nat>, fd: Option<nat>)
    requires i < |vmas| == |uses| && j < i && p < i && LastUser(uses, p)
    requires Current(vmas, uses, i, Some(p), flags, desc, fd)
    requires uses' == uses[i := Use(fd, false)] && vmas[i].opener == Filemap && vmas[i].file == vmas[p].file
    requires uses[j].fd == fd && Grouped(vmas, uses, i)
    ensures Run(vmas, uses', j, i)
  {
    if p < j {
      NotAfterLast(uses, p, j);
      assert false;
    } else if j < p {
      assert Shares(uses, j, p) && Run(vmas, uses, j, p);
    }
  }

  lemma MarkShared(uses: seq<Use>, uses': seq<Use>, i: nat, p: nat, fd: Option<nat>)
    requires p < i < |uses| && Marked(uses, Some(p)) && LastUser(uses, p) && uses[p].fd == fd && uses[i].fd == None
    requires uses' == uses[i := Use(fd, false)] && forall l :: i < l < |uses| ==> uses[l].fd == None
    ensures Marked(uses', Some(i))
  {
    forall j | 0 <= j < |uses| && j != i ensures uses'[j].close <==> LastUser(uses', j) {
      if j == p {
        assert Shares(uses', p, i);
      } else {
        assert Shares(uses', j, i) <==> uses[j].fd == fd;
        assert uses[j].fd == fd && j < p ==> Shares(uses, j, p);
        assert p < j ==> !Shares(uses, p, j);
        assert forall l :: j < l < |uses| && l != i ==> (Shares(uses', j, l) <==> Shares(uses, j, l));
      }
    }
  }

  /** The file mapping before area i is of another file. */
  lemma AnewIff(vmas: seq<Vma>, uses: seq<Use>, i: nat, current: Option<nat>, flags: nat, desc: Option<nat>,
                fd: Option<nat>)
    requires i < |vmas| == |uses| && Current(vmas, uses, i, current, flags, desc, fd) && vmas[i].opener == Filemap
    ensures OpensAnew(vmas, i) <==> flags != vmas[i].file.flags || desc != Some(vmas[i].file.desc)
  {
    if flags == vmas[i].file.flags && desc == Some(vmas[i].file.desc) {
      assert SameFileNext(vmas, current.value, i);
    } else {
      forall j | 0 <= j < i ensures !SameFileNext(vmas, j, i) { }
    }
  }

  /** A file mapping that opens a file starts a new run. */
  lemma NewRun(vmas: seq<Vma>, uses: seq<Use>, uses': seq<Use>, i: nat, f: nat, next: nat, current: Option<nat>,
               flags: nat, desc: Option<nat>, fd: Option<nat>)
    requires Areas(vmas, uses, i, f, current, flags, desc, fd) && i < |vmas| && vmas[i].opener == Filemap
    requires OpensAnew(vmas, i) && next == f + 1 && uses' == uses[i := Use(Some(f), false)]
    ensures Areas(vmas, uses', i + 1, next, Some(i), vmas[i].file.flags, Some(vmas[i].file.desc), Some(f))
  {
    AddOwn(vmas, uses, uses', i, f, next, Use(Some(f), false));
  }

  // ----- what is open

  /** The descriptors of the areas from i on. */
  ghost predicate Needed(uses: seq<Use>, i: nat, f: nat) {
    exists j :: i <= j < |uses| && uses[j].fd == Some(f)
  }

  /** Every descriptor of an area is open and refers to the area's own file; no others are open. */
  ghost predicate Holding(vmas: seq<Vma>, uses: seq<Use>, table: map<nat, File>) {
    && |uses| == |vmas|
    && (forall j :: 0 <= j < |uses| && uses[j].fd.Some? ==>
          uses[j].fd.value in table && table[uses[j].fd.value] == vmas[j].file)
    && (forall f: nat :: f in table ==> Needed(uses, 0, f))
  }

  /** The mappings of the first i areas. */
  function Mappings(uses: seq<Use>, i: nat): seq<(nat, nat)>
    requires i <= |uses|
  {
    if i == 0 then []
    else Mappings(uses, i - 1) + (if uses[i - 1].fd.Some? then [(i - 1, uses[i - 1].fd.value)] else [])
  }

  lemma {:induction false} MappingsKept(uses: seq<Use>, uses': seq<Use>, i: nat)
    requires i <= |uses| == |uses'| && forall j :: 0 <= j < i ==> uses'[j].fd == uses[j].fd
    ensures Mappings(uses', i) == Mappings(uses, i)
  {
    if i > 0 { MappingsKept(uses, uses', i - 1); }
  }

  lemma HoldingAdd(vmas: seq<Vma>, uses: seq<Use>, uses': seq<Use>, i: nat, next: nat, f: nat, close: bool,
                   table: map<nat, File>)
    requires Opened(vmas, uses, i, next) && Holding(vmas, uses, table) && i < |vmas|
    requires f in table ==> table[f] == vmas[i].file
    requires f !in table ==> f == next
    requires uses' == uses[i := Use(Some(f), close)]
    ensures Holding(vmas, uses', table[f := vmas[i].file])
  {
    var table' := table[f := vmas[i].file];
    assert uses'[i].fd == Some(f);
    forall g: nat | g in table' ensures Needed(uses', 0, g) {
      if g != f {
        var j :| 0 <= j < |uses| && uses[j].fd == Some(g);
        assert uses'[j].fd == Some(g);
      }
    }
  }

  lemma HoldingMarks(vmas: seq<Vma>, uses: seq<Use>, uses': seq<Use>, table: map<nat, File>)
    requires Holding(vmas, uses, table) && |uses'| == |uses|
    requires forall j :: 0 <= j < |uses| ==> uses'[j].fd == uses[j].fd
    ensures Holding(vmas, uses', table)
  {
    forall g: nat | g in table ensures Needed(uses', 0, g) {
      var j :| 0 <= j < |uses| && uses[j].fd == Some(g);
      assert uses'[j].fd == Some(g);
    }
  }

  /** An area that joins a run changes neither the rule for marks nor what is open. */
  lemma KeepShared(vmas: seq<Vma>, uses: seq<Use>, uses': seq<Use>, i: nat, next: nat, p: nat, flags: nat,
                   desc: Option<nat>, fd: Option<nat>, table: map<nat, File>)
    requires Areas(vmas, uses, i, next, Some(p), flags, desc, fd) && i < |vmas| && vmas[i].file == vmas[p].file
    requires Marked(uses, Some(p)) && Holding(vmas, uses, table) && uses' == uses[i := Use(fd, false)]
    ensures Marked(uses', Some(i)) && Holding(vmas, uses', table)
  {
    CurrentIsLast(vmas, uses, i, next, p, flags, desc, fd);
    MarkShared(uses, uses', i, p, fd);
    HoldingAdd(vmas, uses, uses', i, next, fd.value, false, table);
    assert table[fd.value := vmas[i].file] == table;
  }

  /** An area with an opener of its own. */
  lemma KeepOwn(vmas: seq<Vma>, uses: seq<Use>, uses': seq<Use>, i: nat, f: nat, next: nat, current: Option<nat>,
                flags: nat, desc: Option<nat>, fd: Option<nat>, table: map<nat, File>)
    requires Areas(vmas, uses, i, f, current, flags, desc, fd) && i < |vmas| && vmas[i].opener == Other && next == f + 1
    requires Marked(uses, current) && Holding(vmas, uses, table) && f !in table
    requires uses' == uses[i := Use(Some(f), true)]
    ensures Areas(vmas, uses', i + 1, next, current, flags, desc, fd)
    ensures Marked(uses', current) && Holding(vmas, uses', table[f := vmas[i].file])
  {
    AddOwn(vmas, uses, uses', i, f, next, Use(Some(f), true));
    MarkOwn(vmas, uses, uses', i, f, Use(Some(f), true), current, current);
    HoldingAdd(vmas, uses, uses', i, f, f, true, table);
  }

  /** An area without opener. */
  lemma KeepNone(vmas: seq<Vma>, uses: seq<Use>, i: nat, next: nat, current: Option<nat>, flags: nat, desc: Option<nat>,
                 fd: Option<nat>)
    requires Areas(vmas, uses, i, next, current, flags, desc, fd) && i < |vmas| && vmas[i].opener == NoOpen
    ensures Areas(vmas, uses, i + 1, next, current, flags, desc, fd)
  {
    AddOwn(vmas, uses, uses, i, next, next, uses[i]);
  }

  /** The file mappings among the first i areas are made once each, in order, each while its descriptor is the only
      one open; exactly runs of mappings of one file share a descriptor; and none is left open. */
  ghost predicate Premapped(areas: seq<Vma>, uses: seq<Use>, i: nat, log: seq<Event>) {
    && i <= |areas| == |uses| && Grouped(areas, uses, i) && MapsOf(log) == Mappings(uses, i) && Alone(log)
    && (forall j :: 0 <= j < |uses| ==> (uses[j].fd.Some? <==> j < i && areas[j].opener != NoOpen))
    && Legal(FilesOf(areas), log) && Table(log) == map[]
  }

  // ----- the context

  /** The context of open_filemap, what has happened to descriptors, and what each area has so far. */
  class Ctx {
    const vmas: seq<Vma>
    var flags: nat
    var desc: Option<nat>
    var fd: Option<nat>
    var close: bool
    var vma: Option<nat>
    var uses: seq<Use>
    var log: seq<Event>
    var next: nat                // descriptors opened so far

    /** filemap_ctx_init; the flags may remain any. */
    constructor (vmas: seq<Vma>, autoClose: bool, flags: nat)
      ensures this.vmas == vmas && close == autoClose && desc == None && fd == None && vma == None
      ensures uses == seq(|vmas|, k => Use(None, false)) && log == [] && next == 0
    {
      this.vmas, this.flags, desc, fd, vma, close := vmas, flags, None, None, None, autoClose;
      uses, log, next := seq(|vmas|, k => Use(None, false)), [], 0;
    }

    ghost predicate AreasOk(i: nat)
      reads this
    {
      Areas(vmas, uses, i, next, vma, flags, desc, fd)
    }

    /** The calls so far are legal, and descriptors are numbered by their open calls. */
    ghost predicate LogOk()
      reads this
    {
      Legal(FilesOf(vmas), log) && forall f: nat :: OpenedIn(log, f) <==> f < next
    }

    /** The descriptor of the context, and nothing else. */
    ghost function Own(): map<nat, File>
      reads this
    {
      if fd.Some? && desc.Some? then map[fd.value := File(flags, desc.value)] else map[]
    }

    /** The first i areas are opened for the restorer, and nothing is mapped or closed yet. */
    ghost predicate ForRestorer()
      reads this
    {
      Marked(uses, vma) && Holding(vmas, uses, Table(log)) && MapsOf(log) == []
    }

    /** The first m areas are mapped, each while only its descriptor was open, and only the current one is open. */
    ghost predicate ForPremap(m: nat)
      reads this
    {
      m <= |uses| && Table(log) == Own() && Alone(log) && MapsOf(log) == Mappings(uses, m)
    }

    /** The first i areas are opened and, in auto-close mode, the first m mapped. */
    ghost predicate Following(i: nat, m: nat)
      reads this
    {
      AreasOk(i) && LogOk() && if close then ForPremap(m) else ForRestorer()
    }

    /** filemap_ctx_fini. */
    method Fini()
      requires LogOk() && (close && fd.Some? ==> fd.value in Table(log)) && (close ==> Alone(log))
      requires vma.Some? ==> vma.value < |uses|
      modifies this`uses, this`log
      ensures LogOk() && MapsOf(log) == old(MapsOf(log)) && (close ==> Alone(log))
      ensures close ==>
                uses == old(uses) && Table(log) == if fd.Some? then old(Table(log)) - {fd.value} else old(Table(log))
      ensures !close ==> log == old(log) && uses == Finished(old(uses), vma)
    {
      if close {
        if fd.Some? {
          Append(FilesOf(vmas), log, Closes(fd.value));
          AloneAppend(log, Closes(fd.value));
          log := log + [Closes(fd.value)];
        }
      } else {
        if vma.Some? { uses := uses[vma.value := uses[vma.value].(close := true)]; }
      }
    }

    /** A successful open call for area i. */
    method Open(i: nat) returns (f: nat)
      requires LogOk() && i < |vmas| && (close ==> Alone(log))
      modifies this`log, this`next
      ensures f == old(next) && next == f + 1 && LogOk() && MapsOf(log) == old(MapsOf(log)) && (close ==> Alone(log))
      ensures f !in old(Table(log)) && Table(log) == old(Table(log))[f := vmas[i].file]
    {
      f := next;
      var e := Opens(f, vmas[i].file);
      UnknownIsUnused(FilesOf(vmas), log, f);
      Append(FilesOf(vmas), log, e);
      if close { AloneAppend(log, e); }
      log, next := log + [e], next + 1;
    }

    /** Opens the file of area i and finishes the current descriptor, which the new one replaces. */
    method SwitchFile(i: nat)
      requires LogOk() && i < |vmas| && (vma.Some? ==> vma.value < |uses|)
      requires close ==> Alone(log) && Table(log) == Own() && (desc.Some? <==> fd.Some?)
      modifies this`flags, this`desc, this`fd, this`uses, this`log, this`next
      ensures next == old(next) + 1 && fd == Some(old(next)) && LogOk() && MapsOf(log) == old(MapsOf(log))
      ensures desc.Some? && File(flags, desc.value) == vmas[i].file
      ensures uses == if close then old(uses) else Finished(old(uses), vma)
      ensures if close then Alone(log) && Table(log) == Own()
              else fd.value !in old(Table(log)) && Table(log) == old(Table(log))[fd.value := vmas[i].file]
    {
      var f := Open(i);
      Fini();
      flags, desc, fd := vmas[i].file.flags, Some(vmas[i].file.desc), Some(f);
    }

    /** Area i gets the current descriptor. */
    method Take(i: nat)
      requires i < |uses|
      modifies this`vma, this`uses
      ensures vma == Some(i) && uses == old(uses)[i := Use(fd, false)]
    {
      vma, uses := Some(i), uses[i := Use(fd, false)];
    }

    /** The state after open_filemap of area i. */
    ghost predicate OpenedNext(i: nat)
      reads this
    {
      vma == Some(i) && Following(i + 1, i)
    }

    /** The file of area i is opened in place of the current one. */
    method StartRun(i: nat)
      requires Following(i, i) && i < |vmas| && vmas[i].opener == Filemap
      requires OpensAnew(vmas, i)
      modifies this
      ensures close == old(close) && OpenedNext(i)
    {
      ghost var done := if close then uses else Finished(uses, vma);
      FinishedAreas(vmas, uses, i, next, vma, flags, desc, fd);
      SwitchFile(i);
      Take(i);
      NewRun(vmas, done, uses, i, old(next), next, old(vma), old(flags), old(desc), old(fd));
      if close {
        MappingsKept(old(uses), uses, i);
      } else {
        MarkOwn(vmas, done, uses, i, old(next), Use(fd, false), None, vma);
        HoldingMarks(vmas, old(uses), done, old(Table(log)));
        HoldingAdd(vmas, done, uses, i, old(next), fd.value, false, old(Table(log)));
      }
    }

    /** Area i is one more user of the current descriptor. */
    method JoinRun(i: nat)
      requires Following(i, i) && i < |vmas| && vmas[i].opener == Filemap
      requires desc == Some(vmas[i].file.desc) && flags == vmas[i].file.flags
      modifies this`vma, this`uses
      ensures OpenedNext(i)
    {
      Take(i);
      AddShared(vmas, old(uses), uses, i, next, old(vma).value, flags, desc, fd);
      if close {
        MappingsKept(old(uses), uses, i);
      } else {
        KeepShared(vmas, old(uses), uses, i, next, old(vma).value, flags, desc, fd, Table(log));
      }
    }

    /** open_filemap of area i; `openable` says whether the file can be opened. */
    method OpenFilemap(i: nat, openable: bool) returns (ok: bool)
      requires Following(i, i) && i < |vmas| && vmas[i].opener == Filemap
      modifies this
      ensures close == old(close) && (ok <==> (OpensAnew(vmas, i) ==> openable))
      ensures if ok then OpenedNext(i) else unchanged(this)
    {
      AnewIff(vmas, uses, i, vma, flags, desc, fd);
      if flags != vmas[i].file.flags || desc != Some(vmas[i].file.desc) {
        if !openable { return false; }
        StartRun(i);
      } else {
        JoinRun(i);
      }
      ok := true;
    }

    /** An area with an opener of its own is marked at once; one without opener is passed over. */
    method OpenOther(i: nat, openable: bool) returns (ok: bool)
      requires !close && Following(i, i) && i < |vmas| && vmas[i].opener != Filemap
      modifies this`uses, this`log, this`next
      ensures ok <==> (OpensAnew(vmas, i) ==> openable)
      ensures if ok then Following(i + 1, i + 1) else unchanged(this)
    {
      ok := vmas[i].opener == NoOpen || openable;
      if vmas[i].opener == NoOpen {
        KeepNone(vmas, uses, i, next, vma, flags, desc, fd);
      } else if openable {
        var f := Open(i);
        uses := uses[i := Use(Some(f), true)];
        KeepOwn(vmas, old(uses), uses, i, f, next, vma, flags, desc, fd, old(Table(log)));
      }
    }

    /** mmap of area i, right after it was opened (premap_private_vma). */
    method Map(i: nat)
      requires close && OpenedNext(i) && i < |vmas|
      modifies this`log
      ensures Following(i + 1, i + 1)
    {
      var e := Maps(i, fd.value);
      Append(FilesOf(vmas), log, e);
      AloneAppend(log, e);
      log := log + [e];
    }

    /** One turn of the loop of open_vmas. */
    method OpenOne(i: nat, openable: bool) returns (ok: bool)
      requires !close && Following(i, i) && i < |vmas|
      modifies this
      ensures !close && (ok <==> (OpensAnew(vmas, i) ==> openable)) && (ok ==> Following(i + 1, i + 1))
    {
      if vmas[i].opener == Filemap {
        ok := OpenFilemap(i, openable);
      } else {
        ok := OpenOther(i, openable);
      }
    }

    /** The end of open_vmas. */
    method EndOpening()
      requires !close && Following(|vmas|, |vmas|)
      modifies this`uses, this`log
      ensures Released(vmas, uses) && Legal(FilesOf(vmas), log) && Holding(vmas, uses, Table(log)) && MapsOf(log) == []
    {
      Fini();
      FinishedAreas(vmas, old(uses), |vmas|, next, vma, flags, desc, fd);
      HoldingMarks(vmas, old(uses), uses, Table(log));
    }

    /** One turn of the loop of premap_priv_vmas. */
    method PremapOne(i: nat, openable: bool) returns (ok: bool)
      requires close && Following(i, i) && i < |vmas| && vmas[i].opener != Other
      modifies this
      ensures close && (ok <==> (OpensAnew(vmas, i) ==> openable))
      ensures if ok then Following(i + 1, i + 1) else unchanged(this)
    {
      if vmas[i].opener == Filemap {
        ok := OpenFilemap(i, openable);
        if ok { Map(i); }
      } else {
        KeepNone(vmas, uses, i, next, vma, flags, desc, fd);
        ok := true;
      }
    }

    /** The end of premap_priv_vmas. */
    method EndPremap(i: nat)
      requires close && Following(i, i) && i <= |vmas|
      modifies this`uses, this`log
      ensures Premapped(vmas, uses, i, log)
    {
      Fini();
    }
  }

  // ----- for the restorer

  /** open_vmas.  It succeeds exactly if every open that is needed does; then the areas' descriptors are open, each for
      the area's own file, shared by exactly the runs, and marked for closing. */
  method OpenVmas(vmas: seq<Vma>, openable: nat -> bool, flags: nat) returns (ok: bool, uses: seq<Use>, log: seq<Event>)
    ensures ok <==> forall i :: 0 <= i < |vmas| && OpensAnew(vmas, i) ==> openable(i)
    ensures ok ==>
              Released(vmas, uses) && Legal(FilesOf(vmas), log) && Holding(vmas, uses, Table(log)) && MapsOf(log) == []
  {
    var ctx := new Ctx(vmas, false, flags);
    uses, log := ctx.uses, [];
    for i := 0 to |vmas|
      invariant ctx.vmas == vmas && !ctx.close && ctx.Following(i, i) && fresh(ctx)
      invariant forall j :: 0 <= j < i && OpensAnew(vmas, j) ==> openable(j)
    {
      ok := ctx.OpenOne(i, openable(i));
      if !ok { return; }
    }
    ctx.EndOpening();
    ok, uses, log := true, ctx.uses, ctx.log;
  }

  lemma NeededNext(uses: seq<Use>, i: nat, f: nat)
    requires i < |uses|
    ensures Needed(uses, i, f) <==> uses[i].fd == Some(f) || Needed(uses, i + 1, f)
  {
    if Needed(uses, i, f) {
      var j :| i <= j < |uses| && uses[j].fd == Some(f);
      assert j == i || Needed(uses, i + 1, f);
    }
    if Needed(uses, i + 1, f) {
      var j :| i + 1 <= j < |uses| && uses[j].fd == Some(f);
      assert Needed(uses, i, f);
    }
  }

  lemma NeededUnlessLast(uses: seq<Use>, i: nat)
    requires i < |uses| && uses[i].fd.Some?
    ensures Needed(uses, i + 1, uses[i].fd.value) <==> !LastUser(uses, i)
  {
    if Needed(uses, i + 1, uses[i].fd.value) {
      var j :| i + 1 <= j < |uses| && uses[j].fd == uses[i].fd;
      assert Shares(uses, i, j);
    } else {
      forall l | i < l < |uses| ensures !Shares(uses, i, l) { }
    }
  }

  /** What is still open once the first i areas are mapped. */
  ghost predicate StillOpen(uses: seq<Use>, table0: map<nat, File>, table: map<nat, File>, i: nat) {
    && (forall f: nat :: f in table <==> f in table0 && Needed(uses, i, f))
    && (forall f: nat :: f in table ==> table[f] == table0[f])
  }

  lemma StillOpenNext(vmas: seq<Vma>, uses: seq<Use>, table0: map<nat, File>, table: map<nat, File>,
                      table': map<nat, File>, i: nat)
    requires Released(vmas, uses) && i < |uses| && StillOpen(uses, table0, table, i)
    requires table' == if uses[i].close then table - {uses[i].fd.value} else table
    ensures StillOpen(uses, table0, table', i + 1)
  {
    forall f: nat ensures f in table' <==> f in table0 && Needed(uses, i + 1, f) {
      NeededNext(uses, i, f);
      if uses[i].fd == Some(f) { NeededUnlessLast(uses, i); }
    }
  }

  lemma NothingOpen(uses: seq<Use>, table0: map<nat, File>, table: map<nat, File>)
    requires StillOpen(uses, table0, table, |uses|)
    ensures table == map[]
  {
    assert forall f: nat :: !Needed(uses, |uses|, f);
    assert forall f: nat :: f !in table;
  }

  /** The restorer maps area i and closes its descriptor if it is marked. */
  method MapOne(vmas: seq<Vma>, uses: seq<Use>, ghost table0: map<nat, File>, log0: seq<Event>, i: nat)
    returns (log: seq<Event>)
    requires Released(vmas, uses) && Holding(vmas, uses, table0) && i < |uses|
    requires Legal(FilesOf(vmas), log0) && StillOpen(uses, table0, Table(log0), i)
    ensures Legal(FilesOf(vmas), log) && StillOpen(uses, table0, Table(log), i + 1)
    ensures MapsOf(log) == MapsOf(log0) + (if uses[i].fd.Some? then [(i, uses[i].fd.value)] else [])
  {
    log := log0;
    if uses[i].fd.Some? {
      var f := uses[i].fd.value;
      assert Needed(uses, i, f);
      Append(FilesOf(vmas), log, Maps(i, f));
      log := log + [Maps(i, f)];
      if uses[i].close {
        Append(FilesOf(vmas), log, Closes(f));
        log := log + [Closes(f)];
      }
    }
    StillOpenNext(vmas, uses, table0, Table(log0), Table(log), i);
  }

  /** The restorer maps the areas in order: all of them from open descriptors of their own files, and in the end every
      descriptor is closed. */
  method MapAndClose(vmas: seq<Vma>, uses: seq<Use>, log0: seq<Event>) returns (log: seq<Event>)
    requires Released(vmas, uses) && Legal(FilesOf(vmas), log0) && Holding(vmas, uses, Table(log0))
    ensures Legal(FilesOf(vmas), log) && Table(log) == map[] && MapsOf(log) == MapsOf(log0) + Mappings(uses, |uses|)
  {
    log := log0;
    for i := 0 to |uses|
      invariant Legal(FilesOf(vmas), log) && StillOpen(uses, Table(log0), Table(log), i)
      invariant MapsOf(log) == MapsOf(log0) + Mappings(uses, i)
    {
      ghost var last := if uses[i].fd.Some? then [(i, uses[i].fd.value)] else [];
      assert MapsOf(log0) + Mappings(uses, i) + last == MapsOf(log0) + (Mappings(uses, i) + last);
      log := MapOne(vmas, uses, Table(log0), log, i);
    }
    NothingOpen(uses, Table(log0), Table(log));
  }

  /** Both parts: if all opens succeed, every area is mapped once, in order, from an open descriptor of its own file,
      and each descriptor is closed exactly once, after the last mapping made from it. */
  method RestoreFiles(vmas: seq<Vma>, openable: nat -> bool, flags: nat)
      returns (ok: bool, uses: seq<Use>, log: seq<Event>)
    ensures ok <==> forall i :: 0 <= i < |vmas| && OpensAnew(vmas, i) ==> openable(i)
    ensures ok ==> Released(vmas, uses) && MapsOf(log) == Mappings(uses, |uses|)
    ensures ok ==> forall m :: 0 <= m < |log| && log[m].Maps? ==> MappedOpen(FilesOf(vmas), log, m)
    ensures ok ==> forall k :: 0 <= k < |log| && log[k].Opens? ==> ClosedOnceAfter(log, log[k].fd)
  {
    ok, uses, log := OpenVmas(vmas, openable, flags);
    if ok {
      log := MapAndClose(vmas, uses, log);
      Balanced(FilesOf(vmas), log);
    }
  }

  // ----- for the premap

  /** premap_priv_vmas passes over areas that are not private; private ones have no opener but open_filemap. */
  function Private(vmas: seq<Vma>): seq<Vma> {
    seq(|vmas|, i requires 0 <= i < |vmas| => if vmas[i].opener == Other then Vma(NoOpen, vmas[i].file) else vmas[i])
  }

  /** The loop of premap_priv_vmas over the private areas; the first one whose open is needed and fails ends it. */
  method PremapAreas(areas: seq<Vma>, openable: nat -> bool, flags: nat)
      returns (mapped: nat, uses: seq<Use>, log: seq<Event>)
    requires forall i :: 0 <= i < |areas| ==> areas[i].opener != Other
    ensures mapped <= |areas| && forall i :: 0 <= i < mapped && OpensAnew(areas, i) ==> openable(i)
    ensures mapped < |areas| ==> OpensAnew(areas, mapped) && !openable(mapped)
    ensures Premapped(areas, uses, mapped, log)
  {
    var ctx := new Ctx(areas, true, flags);
    mapped := 0;
    var ok := true;
    while mapped < |areas| && ok
      invariant mapped <= |areas| && ctx.vmas == areas && ctx.close && ctx.Following(mapped, mapped) && fresh(ctx)
      invariant forall j :: 0 <= j < mapped && OpensAnew(areas, j) ==> openable(j)
      invariant !ok ==> mapped < |areas| && OpensAnew(areas, mapped) && !openable(mapped)
      decreases |areas| - mapped, ok
    {
      ok := ctx.PremapOne(mapped, openable(mapped));
      if ok { mapped := mapped + 1; }
    }
    ctx.EndPremap(mapped);
    uses, log := ctx.uses, ctx.log;
  }

  /** The file mappings among the first i areas, in order. */
  function FileMappings(vmas: seq<Vma>, i: nat): seq<nat>
    requires i <= |vmas|
  {
    if i == 0 then [] else FileMappings(vmas, i - 1) + (if vmas[i - 1].opener == Filemap then [i - 1] else [])
  }

  function AreasOf(maps: seq<(nat, nat)>): seq<nat> { seq(|maps|, k requires 0 <= k < |maps| => maps[k].0) }

  lemma {:induction false} MappedAreas(vmas: seq<Vma>, uses: seq<Use>, i: nat)
    requires i <= |vmas| == |uses| && forall j :: 0 <= j < i ==> (uses[j].fd.Some? <==> vmas[j].opener == Filemap)
    ensures AreasOf(Mappings(uses, i)) == FileMappings(vmas, i)
  {
    if i > 0 { MappedAreas(vmas, uses, i - 1); }
  }

  /** Area i is a file mapping, and the one before it is of something else. */
  ghost predicate FirstOfRun(vmas: seq<Vma>, i: nat)
    requires i < |vmas|
  {
    vmas[i].opener == Filemap && forall j :: 0 <= j < i ==> !SameFileNext(vmas, j, i)
  }

  /** Areas that are not private are as good as absent. */
  lemma PrivateAlike(vmas: seq<Vma>, uses: seq<Use>, i: nat)
    requires |uses| == |vmas| && i <= |vmas|
    ensures forall j :: 0 <= j < |vmas| ==> (OpensAnew(Private(vmas), j) <==> FirstOfRun(vmas, j))
    ensures Grouped(Private(vmas), uses, i) ==> Grouped(vmas, uses, i)
  {
    var areas := Private(vmas);
    assert forall j :: 0 <= j < |vmas| ==> areas[j].file == vmas[j].file;
    assert forall j :: 0 <= j < |vmas| ==> (areas[j].opener == Filemap <==> vmas[j].opener == Filemap);
    forall j, l | 0 <= j < l < |vmas| ensures SameFileNext(areas, j, l) <==> SameFileNext(vmas, j, l) { }
    if Grouped(areas, uses, i) {
      forall j, l | 0 <= j < l < i && Shares(uses, j, l) ensures Run(vmas, uses, j, l) {
        assert Run(areas, uses, j, l);
      }
    }
  }

  /** open_filemap in the mode of premap_priv_vmas, where each mapping is made at once.  The file mappings before the
      first failing open are made once each, in order, from an open descriptor of their own file that is the only one
      open; and each descriptor is closed exactly once, after the last mapping made from it, also if an open fails. */
  method PremapFiles(vmas: seq<Vma>, openable: nat -> bool, flags: nat)
      returns (mapped: nat, uses: seq<Use>, log: seq<Event>)
    ensures mapped <= |vmas| && forall i :: 0 <= i < mapped && FirstOfRun(vmas, i) ==> openable(i)
    ensures mapped < |vmas| ==> FirstOfRun(vmas, mapped) && !openable(mapped)
    ensures AreasOf(MapsOf(log)) == FileMappings(vmas, mapped) && Alone(log)
    ensures |uses| == |vmas| && MapsOf(log) == Mappings(uses, mapped) && Grouped(vmas, uses, mapped)
    ensures forall m :: 0 <= m < |log| && log[m].Maps? ==> MappedOpen(FilesOf(vmas), log, m)
    ensures forall k :: 0 <= k < |log| && log[k].Opens? ==> ClosedOnceAfter(log, log[k].fd)
  {
    ghost var areas := Private(vmas);
    mapped, uses, log := PremapAreas(Private(vmas), openable, flags);
    assert FilesOf(areas) == FilesOf(vmas);
    Balanced(FilesOf(vmas), log);
    PrivateAlike(vmas, uses, mapped);
    MappedAreas(vmas, uses, mapped);
  }
}
