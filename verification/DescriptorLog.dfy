/** What happens to descriptors, call by call.  A descriptor is known by the number of the open call it comes from. */
module DescriptorLog {

  /** A file opened in a certain way. */
  datatype File = File(flags: nat, desc: nat)

  datatype Event = Opens(fd: nat, file: File) | Maps(area: nat, fd: nat) | Closes(fd: nat)

  function Apply(table: map<nat, File>, e: Event): map<nat, File> {
    match e
    case Opens(fd, file) => table[fd := file]
    case Maps(_, _) => table
    case Closes(fd) => table - {fd}
  }

  /** The open descriptors after the log, with what they refer to. */
  function Table(log: seq<Event>): map<nat, File> {
    if log == [] then map[] else Apply(Table(log[..|log| - 1]), log[|log| - 1])
  }

  ghost predicate OpenedIn(log: seq<Event>, fd: nat) {
    exists k :: 0 <= k < |log| && log[k].Opens? && log[k].fd == fd
  }

  /** Every open gives a new descriptor, every mapping is made from an open descriptor of the area's own file, and
      only open descriptors are closed. */
  ghost predicate Legal(files: seq<File>, log: seq<Event>) {
    log == [] ||
    var n := |log| - 1;
    Legal(files, log[..n]) && LegalNext(files, log[..n], log[n])
  }

  ghost predicate LegalNext(files: seq<File>, log: seq<Event>, e: Event) {
    match e
    case Opens(fd, _) => !OpenedIn(log, fd)
    case Maps(area, fd) => area < |files| && fd in Table(log) && Table(log)[fd] == files[area]
    case Closes(fd) => fd in Table(log)
  }

  /** The mappings that are made, in order: which area, from which descriptor. */
  function MapsOf(log: seq<Event>): seq<(nat, nat)> {
    if log == [] then []
    else MapsOf(log[..|log| - 1]) + (if log[|log| - 1].Maps? then [(log[|log| - 1].area, log[|log| - 1].fd)] else [])
  }

  /** Whenever a mapping is made, its descriptor is the only one open. */
  ghost predicate Alone(log: seq<Event>) {
    forall k :: 0 <= k < |log| && log[k].Maps? ==> Table(log[..k]).Keys == {log[k].fd}
  }

  /** A log with one more event. */
  lemma {:induction false} Append(files: seq<File>, log: seq<Event>, e: Event)
    requires Legal(files, log) && LegalNext(files, log, e)
    ensures Legal(files, log + [e]) && Table(log + [e]) == Apply(Table(log), e)
    ensures MapsOf(log + [e]) == MapsOf(log) + (if e.Maps? then [(e.area, e.fd)] else [])
    ensures forall f :: OpenedIn(log + [e], f) <==> OpenedIn(log, f) || (e.Opens? && e.fd == f)
  {
    var log' := log + [e];
    assert log'[..|log|] == log && log'[|log|] == e;
    forall f ensures OpenedIn(log', f) <==> OpenedIn(log, f) || (e.Opens? && e.fd == f) {
      OpenedAppend(log, e, f);
    }
  }

  lemma OpenedAppend(log: seq<Event>, e: Event, f: nat)
    ensures OpenedIn(log + [e], f) <==> OpenedIn(log, f) || (e.Opens? && e.fd == f)
  {
    var log' := log + [e];
    if OpenedIn(log, f) {
      var k :| 0 <= k < |log| && log[k].Opens? && log[k].fd == f;
      assert log'[k] == log[k];
    } else if e.Opens? && e.fd == f {
      assert log'[|log|] == e;
    }
  }

  lemma {:induction false} AloneAppend(log: seq<Event>, e: Event)
    requires Alone(log) && (e.Maps? ==> Table(log).Keys == {e.fd})
    ensures Alone(log + [e])
  {
    var log' := log + [e];
    forall k | 0 <= k < |log'| && log'[k].Maps? ensures Table(log'[..k]).Keys == {log'[k].fd} {
      if k < |log| { assert log'[..k] == log[..k]; } else { assert log'[..k] == log; }
    }
  }

  // ----- the life of a descriptor

  lemma {:induction false} UnknownIsUnused(files: seq<File>, log: seq<Event>, f: nat)
    requires Legal(files, log) && !OpenedIn(log, f)
    ensures f !in Table(log) && forall m :: 0 <= m < |log| ==> log[m].fd != f
  {
    if log != [] {
      var n := |log| - 1;
      OpenedAppend(log[..n], log[n], f);
      assert log == log[..n] + [log[n]];
      UnknownIsUnused(files, log[..n], f);
      assert forall m :: 0 <= m < n ==> log[m] == log[..n][m];
    }
  }

  lemma {:induction false} OpenIsUnclosed(files: seq<File>, log: seq<Event>, f: nat)
    requires Legal(files, log) && f in Table(log)
    ensures OpenedIn(log, f) && forall m :: 0 <= m < |log| ==> log[m] != Closes(f)
  {
    var n := |log| - 1;
    OpenedAppend(log[..n], log[n], f);
    assert log == log[..n] + [log[n]];
    if f in Table(log[..n]) {
      OpenIsUnclosed(files, log[..n], f);
    } else {
      UnknownIsUnused(files, log[..n], f);
    }
    assert forall m :: 0 <= m < n ==> log[m] == log[..n][m];
  }

  /** A descriptor that was opened and is no longer open was closed exactly once, after all its uses. */
  lemma {:induction false} ClosedOnce(files: seq<File>, log: seq<Event>, f: nat) returns (l: nat)
    requires Legal(files, log) && OpenedIn(log, f) && f !in Table(log)
    ensures l < |log| && log[l] == Closes(f)
    ensures forall m :: 0 <= m < |log| && m != l ==> log[m] != Closes(f)
    ensures forall m :: 0 <= m < |log| && log[m].fd == f ==> m <= l
  {
    var n := |log| - 1;
    OpenedAppend(log[..n], log[n], f);
    assert log == log[..n] + [log[n]];
    if f in Table(log[..n]) {
      OpenIsUnclosed(files, log[..n], f);
      l := n;
    } else {
      l := ClosedOnce(files, log[..n], f);
    }
    assert forall m :: 0 <= m < n ==> log[m] == log[..n][m];
  }

  lemma {:induction false} MapsAreLegal(files: seq<File>, log: seq<Event>, m: nat)
    requires Legal(files, log) && m < |log|
    ensures LegalNext(files, log[..m], log[m])
  {
    var n := |log| - 1;
    if m < n {
      MapsAreLegal(files, log[..n], m);
      assert log[..n][..m] == log[..m];
    }
  }

  /** The m-th event maps an area from an open descriptor of its own file. */
  ghost predicate MappedOpen(files: seq<File>, log: seq<Event>, m: nat)
    requires m < |log| && log[m].Maps?
  {
    var table := Table(log[..m]);
    log[m].area < |files| && log[m].fd in table && table[log[m].fd] == files[log[m].area]
  }

  /** If nothing is left open, every mapping is made while its descriptor is open for the area's own file, and every
      descriptor that was opened is closed exactly once, after the last mapping made from it. */
  lemma {:induction false} Balanced(files: seq<File>, log: seq<Event>)
    requires Legal(files, log) && Table(log) == map[]
    ensures forall m :: 0 <= m < |log| && log[m].Maps? ==> MappedOpen(files, log, m)
    ensures forall k :: 0 <= k < |log| && log[k].Opens? ==> ClosedOnceAfter(log, log[k].fd)
  {
    forall m | 0 <= m < |log| && log[m].Maps? ensures MappedOpen(files, log, m) {
      MapsAreLegal(files, log, m);
    }
    forall k | 0 <= k < |log| && log[k].Opens? ensures ClosedOnceAfter(log, log[k].fd) {
      var l := ClosedOnce(files, log, log[k].fd);
      assert log[l] == Closes(log[k].fd);
    }
  }

  /** The descriptor is closed at one place only, and not named after it. */
  ghost predicate ClosedOnceAfter(log: seq<Event>, f: nat) {
    exists l :: 0 <= l < |log| && log[l] == Closes(f) && LastNamed(log, f, l)
  }

  ghost predicate LastNamed(log: seq<Event>, f: nat, l: nat) {
    forall m :: 0 <= m < |log| && log[m].fd == f && m != l ==> m < l && !log[m].Closes?
  }
}
