/** The reservation loop and the report writer of `report.py`, as methods that
    change one directory, with any file operation free to fail. */
module ReportDirectory {
  import opened ReportProtocol

  /** No final and no lock: the timestamp may be reserved. */
  predicate IsFree(files: Files, slot: nat) {
    Lock(slot) !in files && forall kind :: Out(slot, kind) !in files
  }

  predicate IsClearOf(files: Files, slot: nat, kind: Kind) {
    Out(slot, kind) !in files && Temp(slot, kind) !in files
  }

  /** No final and no temporary: a report may be written. */
  predicate IsClear(files: Files, slot: nat) {
    forall kind :: IsClearOf(files, slot, kind)
  }

  lemma ClearIsThreefold(files: Files, slot: nat)
    ensures IsClear(files, slot) <==>
            && IsClearOf(files, slot, Json) && IsClearOf(files, slot, Markdown) && IsClearOf(files, slot, Marker)
  {
    if IsClearOf(files, slot, Json) && IsClearOf(files, slot, Markdown) && IsClearOf(files, slot, Marker) {
      forall kind ensures IsClearOf(files, slot, kind) {
        match kind case Json => case Markdown => case Marker =>
      }
    }
  }

  /** The occupied timestamps from `slot` on; the search goes past all of them
      at worst. */
  ghost function TakenFrom(files: Files, slot: nat): set<nat> {
    set path | path in files && path.slot >= slot :: path.slot
  }

  predicate SameAt(f: Files, g: Files, path: Path) {
    (path in f <==> path in g) && (path in f ==> f[path] == g[path])
  }

  function PublishedFiles(files: Files, slot: nat, report: nat): Files {
    (files - {Lock(slot)})[Out(slot, Json) := Rendered(Json, report)]
      [Out(slot, Markdown) := Rendered(Markdown, report)]
      [Out(slot, Marker) := Digests(Rendered(Json, report), Rendered(Markdown, report))]
  }

  /** Free is what holds no path of the slot but, at most, temporaries. */
  lemma FreeExactly(files: Files, slot: nat)
    ensures IsFree(files, slot) <==> forall path: Path :: path in files && path.slot == slot ==> path.Temp?
  {
    if forall path: Path :: path in files && path.slot == slot ==> path.Temp? {
      assert Lock(slot).slot == slot;
      assert forall kind :: Out(slot, kind).slot == slot;
    }
  }

  lemma PublishedIsComplete(files: Files, slot: nat, report: nat)
    ensures IsComplete(PublishedFiles(files, slot, report), slot)
    ensures var after := PublishedFiles(files, slot, report);
            && after[Out(slot, Json)] == Rendered(Json, report)
            && after[Out(slot, Markdown)] == Rendered(Markdown, report)
            && after.Keys == files.Keys - {Lock(slot)} + {Out(slot, Json), Out(slot, Markdown), Out(slot, Marker)}
            && forall path: Path :: path in files && !(path.slot == slot && !path.Temp?) ==>
                 path in after && after[path] == files[path]
    ensures forall other :: other != slot && IsComplete(files, other) ==>
              IsComplete(PublishedFiles(files, slot, report), other)
  {
  }

  class Directory {
    var files: Files
    /** The file operations that failed for a reason other than the directory. */
    ghost var faults: nat

    constructor (files: Files)
      ensures this.files == files
    {
      this.files := files;
    }

    /** `open(path, "x")`, and `os.open` with the exclusive flag. */
    method CreateExclusive(path: Path) returns (ok: bool)
      modifies this
      ensures ok ==> path !in old(files) && files == old(files)[path := Empty]
      ensures !ok ==> files == old(files)
      ensures faults >= old(faults)
      ensures ok <==> path !in old(files) && faults == old(faults)
    {
      ok := *;
      if !ok { faults := faults + 1; }
      ok := ok && path !in files;
      if ok { files := files[path := Empty]; }
    }

    method Unlink(path: Path)
      modifies this
      ensures files == old(files) - {path} && faults == old(faults)
    {
      files := files - {path};
    }

    /** `_write_lf_text`: an exclusive create, a write that may stop half-way,
        and the removal of what it created when it fails. */
    method WriteText(path: Path, content: Content) returns (ok: bool)
      modifies this
      ensures ok ==> path !in old(files) && files == old(files)[path := content]
      ensures !ok ==> files == old(files)
      ensures faults >= old(faults)
      ensures ok <==> path !in old(files) && faults == old(faults)
    {
      ok := CreateExclusive(path);
      if ok {
        var complete: bool := *;
        files := files[path := if complete then content else Partial];
        if !complete {
          faults := faults + 1;
          Unlink(path);
          assert files == old(files);
        }
        ok := complete;
      }
    }

    /** `os.replace`. */
    method Rename(source: Path, target: Path) returns (ok: bool)
      requires source != target
      modifies this
      ensures ok ==> source in old(files) && files == old(files)[target := old(files)[source]] - {source}
      ensures !ok ==> files == old(files)
      ensures faults >= old(faults)
      ensures ok <==> source in old(files) && faults == old(faults)
    {
      ok := *;
      if !ok { faults := faults + 1; }
      ok := ok && source in files;
      if ok { files := files[target := files[source]] - {source}; }
    }

    /** Another process may publish its own report to the slot meanwhile. */
    method Interfere(slot: nat) returns (other: nat)
      modifies this
      ensures files == PublishedFiles(old(files), slot, other)
    {
      other := *;
      files := PublishedFiles(files, slot, other);
    }

    /** `_reserve_exact_report_slot`: the check, the lock, and the check again. */
    method ReserveExact(slot: nat, raced: bool) returns (ok: bool)
      modifies this
      ensures ok ==> IsFree(old(files), slot) && files == old(files)[Lock(slot) := Empty]
      ensures !ok ==> !IsFree(files, slot) && (!raced ==> files == old(files))
      ensures forall path: Path :: path.slot != slot ==> SameAt(old(files), files, path)
    {
      if Out(slot, Json) in files || Out(slot, Markdown) in files || Out(slot, Marker) in files {
        return false;
      }
      if raced { var other := Interfere(slot); }
      if Lock(slot) in files { return false; }
      files := files[Lock(slot) := Empty];
      if Out(slot, Json) in files || Out(slot, Markdown) in files || Out(slot, Marker) in files {
        Unlink(Lock(slot));
        return false;
      }
      forall kind ensures Out(slot, kind) !in files {
        match kind case Json => case Markdown => case Marker =>
      }
      return true;
    }

    /** `reserve_report_slot`: moves on over occupied timestamps to one that is
        free. Other processes may publish to a timestamp between its two checks,
        at most `races` times; that only makes the search move on. */
    method ReserveSlot(candidate: nat, races: nat) returns (slot: nat)
      modifies this
      ensures slot >= candidate && IsFree(old(files), slot)
      ensures forall t :: candidate <= t < slot ==> !IsFree(files, t)
      ensures forall path: Path :: !(candidate <= path.slot <= slot) ==> SameAt(old(files), files, path)
      ensures forall path: Path :: path.slot == slot && path != Lock(slot) ==> SameAt(old(files), files, path)
      ensures Lock(slot) in files
    {
      slot := candidate;
      var left := races;
      var raced: bool := *;
      raced := raced && left > 0;
      var ok := ReserveExact(slot, raced);
      if raced { left := left - 1; }
      while !ok
        invariant slot >= candidate
        invariant forall t :: candidate <= t < slot ==> !IsFree(files, t)
        invariant !ok ==> !IsFree(files, slot)
        invariant ok ==> IsFree(old(files), slot) && Lock(slot) in files
        invariant ok ==>
          forall path: Path :: path.slot == slot && path != Lock(slot) ==> SameAt(old(files), files, path)
        invariant forall path: Path :: !(candidate <= path.slot <= slot) ==> SameAt(old(files), files, path)
        decreases !ok, |TakenFrom(files, slot)| + left
      {
        ghost var before := files;
        TakenShrinks(before, slot);
        raced := *;
        raced := raced && left > 0;
        slot := slot + 1;
        ok := ReserveExact(slot, raced);
        FreedomIsLocal(before, files, slot);
        if raced {
          left := left - 1;
          RaceAddsAtMostOne(before, files, slot - 1);
        }
      }
    }

    /** Removes every path of `paths`, in order. */
    method UnlinkAll(paths: seq<Path>)
      modifies this
      ensures files == old(files) - Paths(paths) && faults == old(faults)
    {
      for k := 0 to |paths|
        invariant files == old(files) - Paths(paths[..k]) && faults == old(faults)
      {
        Unlink(paths[k]);
        assert paths[..k + 1] == paths[..k] + [paths[k]];
      }
      assert paths[..|paths|] == paths;
    }

    /** `_write_reserved_report`: publishes the report and releases the slot, or
        restores the directory exactly and releases the slot; the latter exactly
        when the slot was not clear or a file operation failed. */
    method WriteReserved(slot: nat, report: nat) returns (ok: bool)
      modifies this
      ensures ok ==> files == PublishedFiles(old(files), slot, report)
      ensures !ok ==> files == old(files) - {Lock(slot)}
      ensures ok <==> IsClear(old(files), slot) && faults == old(faults)
    {
      var temps: seq<Path>, outs: seq<Path>;
      ok, temps, outs := WriteFiles(slot, report);
      if !ok { UnlinkAll(outs); }
      UnlinkAll(temps);
      Unlink(Lock(slot));
    }

    /** The body of the `try`, with the lists its `finally` works on. */
    method WriteFiles(slot: nat, report: nat) returns (ok: bool, temps: seq<Path>, outs: seq<Path>)
      modifies this
      ensures CreatedOnly(old(files), temps, outs)
      ensures ok ==> files - {Lock(slot)} == PublishedFiles(old(files), slot, report)
      ensures !ok ==> Without(files, temps, outs) == old(files)
      ensures faults >= old(faults)
      ensures ok <==> IsClear(old(files), slot) && faults == old(faults)
    {
      hide IsClear;
      ClearIsThreefold(files, slot);
      ok, temps, outs := WritePair(slot, report);
      if !ok { return; }
      ok := false;
      var markerTemp, marker := Temp(slot, Marker), Out(slot, Marker);
      if files[outs[0]] == Empty || files[outs[1]] == Empty { return; }
      var digests := Digests(files[outs[0]], files[outs[1]]);
      ok := WriteText(markerTemp, digests);
      if !ok { return; }
      temps := temps + [markerTemp];
      ok := CreateExclusive(marker);
      if !ok { return; }
      outs := outs + [marker];
      ok := Rename(markerTemp, marker);
    }

    /** The two renderings, each written aside, claimed and renamed in place. */
    method WritePair(slot: nat, report: nat) returns (ok: bool, temps: seq<Path>, outs: seq<Path>)
      modifies this
      ensures CreatedOnly(old(files), temps, outs)
      ensures ok ==> temps == [Temp(slot, Json), Temp(slot, Markdown)] && outs == [Out(slot, Json), Out(slot, Markdown)]
      ensures ok ==> files == old(files)[Out(slot, Json) := Rendered(Json, report)]
                                        [Out(slot, Markdown) := Rendered(Markdown, report)]
      ensures !ok ==> Without(files, temps, outs) == old(files)
      ensures faults >= old(faults)
      ensures ok <==> && faults == old(faults)
                      && IsClearOf(old(files), slot, Json) && IsClearOf(old(files), slot, Markdown)
    {
      ok, temps := WriteTemps(slot, report);
      outs := [];
      if !ok { return; }
      var json, markdown := Out(slot, Json), Out(slot, Markdown);
      ok := CreateExclusive(json);
      if !ok { return; }
      outs := [json];
      ok := CreateExclusive(markdown);
      if !ok { return; }
      outs := [json, markdown];
      ok := Rename(Temp(slot, Json), json);
      if !ok { return; }
      ok := Rename(Temp(slot, Markdown), markdown);
    }

    method WriteTemps(slot: nat, report: nat) returns (ok: bool, temps: seq<Path>)
      modifies this
      ensures forall path :: path in temps ==> path.Temp? && path !in old(files)
      ensures ok ==> temps == [Temp(slot, Json), Temp(slot, Markdown)]
      ensures ok ==> files == old(files)[Temp(slot, Json) := Rendered(Json, report)]
                                        [Temp(slot, Markdown) := Rendered(Markdown, report)]
      ensures files - Paths(temps) == old(files)
      ensures faults >= old(faults)
      ensures ok <==> && faults == old(faults)
                      && Temp(slot, Json) !in old(files) && Temp(slot, Markdown) !in old(files)
    {
      temps := [];
      ok := WriteText(Temp(slot, Json), Rendered(Json, report));
      if !ok { return; }
      temps := [Temp(slot, Json)];
      ok := WriteText(Temp(slot, Markdown), Rendered(Markdown, report));
      if !ok { return; }
      temps := [Temp(slot, Json), Temp(slot, Markdown)];
    }
  }

  function Paths(paths: seq<Path>): set<Path> {
    set path | path in paths
  }

  /** The directory once what was created is removed. */
  function Without(files: Files, temps: seq<Path>, outs: seq<Path>): Files {
    files - Paths(outs) - Paths(temps)
  }

  predicate CreatedOnly(before: Files, temps: seq<Path>, outs: seq<Path>) {
    && (forall path :: path in temps ==> path.Temp? && path !in before)
    && (forall path :: path in outs ==> path.Out? && path !in before)
  }

  lemma RaceAddsAtMostOne(before: Files, after: Files, slot: nat)
    requires !IsFree(before, slot)
    requires forall path: Path :: path.slot != slot + 1 ==> SameAt(before, after, path)
    ensures |TakenFrom(after, slot + 1)| <= |TakenFrom(before, slot)|
  {
    TakenShrinks(before, slot);
    var later := TakenFrom(before, slot + 2);
    assert TakenFrom(after, slot + 1) <= later + {slot + 1} by {
      forall t | t in TakenFrom(after, slot + 1) && t != slot + 1 ensures t in later {
        var path: Path :| path in after && path.slot == t;
        assert path in before;
      }
    }
    TakenMember(before, slot);
    assert later + {slot} <= TakenFrom(before, slot);
    Subset(TakenFrom(after, slot + 1), later + {slot + 1});
    Subset(later + {slot}, TakenFrom(before, slot));
  }

  lemma FreedomIsLocal(before: Files, after: Files, slot: nat)
    requires forall path: Path :: path.slot != slot ==> SameAt(before, after, path)
    ensures forall t :: t != slot ==> (IsFree(before, t) <==> IsFree(after, t))
  {
    forall t | t != slot ensures IsFree(before, t) <==> IsFree(after, t) {
      assert SameAt(before, after, Lock(t));
      assert forall kind :: SameAt(before, after, Out(t, kind));
    }
  }

  lemma TakenMember(files: Files, slot: nat)
    requires !IsFree(files, slot)
    ensures slot in TakenFrom(files, slot)
  {
    if Lock(slot) in files {
      assert Lock(slot).slot == slot;
    } else {
      var kind :| Out(slot, kind) in files;
      assert Out(slot, kind).slot == slot;
    }
  }

  /** A slot that cannot be reserved is among the taken ones, and only those. */
  lemma TakenShrinks(files: Files, slot: nat)
    requires !IsFree(files, slot)
    ensures |TakenFrom(files, slot + 1)| < |TakenFrom(files, slot)|
  {
    TakenMember(files, slot);
    assert TakenFrom(files, slot + 1) <= TakenFrom(files, slot) - {slot};
    Subset(TakenFrom(files, slot + 1), TakenFrom(files, slot) - {slot});
  }

  lemma {:induction false} Subset(a: set<nat>, b: set<nat>)
    requires a <= b
    ensures |a| <= |b|
  {
    if a != {} {
      var x :| x in a;
      Subset(a - {x}, b - {x});
    }
  }
}
