/**
  Replacing the generated files of a directory: the previous files move away, the new ones move in, and a move that
  fails is undone.
 */
module OutputReplace {
  import opened Common

  datatype Entry = File(text: string) | Folder

  type Directory = map<string, Entry>

  datatype Result =
    | Replaced
    | Unchanged        // an error, and the directory is as it was
    | Broken           // an error, and undoing it failed as well

  predicate IsGo(name: string) { |name| >= 3 && name[|name| - 3..] == ".go" }

  /** A Go file; with `header`, one that starts with the generated header. */
  predicate Listed(d: Directory, name: string, header: Option<string>) {
    name in d && d[name].File? && IsGo(name) && (header.Some? ==> header.value <= d[name].text)
  }

  /** A listing of a directory: every name once. */
  ghost predicate Lists(d: Directory, listing: seq<string>) {
    && (forall n :: n in listing <==> n in d)
    && (forall i, j :: 0 <= i < j < |listing| ==> listing[i] != listing[j])
  }

  predicate Distinct(names: seq<string>) {
    forall i, j :: 0 <= i < j < |names| ==> names[i] != names[j]
  }

  method GoFiles(d: Directory, listing: seq<string>, header: Option<string>) returns (names: seq<string>)
    requires Lists(d, listing)
    ensures Distinct(names) && forall n :: n in names <==> Listed(d, n, header)
  {
    names := [];
    for i := 0 to |listing|
      invariant Distinct(names) && forall n :: n in names ==> n in listing[..i]
      invariant forall n :: n in names <==> n in listing[..i] && Listed(d, n, header)
    {
      var n := listing[i];
      assert listing[..i + 1] == listing[..i] + [n];
      assert n !in listing[..i];
      assert n in d;
      if d[n].Folder? || !IsGo(n) { continue; }
      if header.Some? && !(header.value <= d[n].text) { continue; }
      names := names + [n];
    }
    assert listing[..|listing|] == listing;
  }

  /** Previous files are generated, or stand where a new file goes. */
  ghost predicate IsPrevious(out: Directory, names: seq<string>, header: string, n: string) {
    Listed(out, n, Some(header)) || (n in out && n in names)
  }

  /** The directory after the replacement: the new files, and the old entries that are not previous. */
  ghost predicate IsReplaced(before: Directory, tmp: Directory, names: seq<string>, header: string, now: Directory) {
    && (forall n :: n in now <==> n in names || (n in before && !IsPrevious(before, names, header, n)))
    && (forall n :: n in names ==> n in tmp && n in now && now[n] == tmp[n])
    && (forall n :: n in now && n !in names ==> now[n] == before[n])
  }

  class Output {
    var out: Option<Directory>      // the output directory; None when there is none
    var tmp: Directory
    var backup: Directory
    const fails: nat -> bool        // which of the steps fail
    const stuck: string -> bool     // which files cannot be moved back or removed again
    const fixedDirectory: bool      // whether a directory that was created cannot be removed again
    var step: nat

    constructor (
      out: Option<Directory>, tmp: Directory, fails: nat -> bool, stuck: string -> bool, fixedDirectory: bool)
      ensures this.out == out && this.tmp == tmp && this.backup == map[] && this.step == 0
      ensures this.fails == fails && this.stuck == stuck && this.fixedDirectory == fixedDirectory
    {
      this.out, this.tmp, this.backup, this.fails, this.stuck, this.step := out, tmp, map[], fails, stuck, 0;
      this.fixedDirectory := fixedDirectory;
    }

    method Attempt() returns (ok: bool)
      modifies this`step
      ensures ok == !fails(old(step)) && step == old(step) + 1
    {
      ok := !fails(step);
      step := step + 1;
    }

    /** Moves the previous files away, one after the other; on a failure some are moved. */
    method MoveAway(previous: seq<string>) returns (ok: bool, moved: seq<string>)
      requires out.Some? && backup == map[] && Distinct(previous) && forall n :: n in previous ==> n in out.value
      modifies this`out, this`backup, this`step
      ensures moved <= previous && (ok ==> moved == previous) && Distinct(moved)
      ensures (forall n :: !fails(n)) ==> ok
      ensures out.Some? && Away(old(out).value, out.value, backup, moved)
    {
      moved := [];
      for i := 0 to |previous|
        invariant moved == previous[..i] && out.Some? && Away(old(out).value, out.value, backup, moved)
      {
        var n := previous[i];
        assert n in previous && n !in previous[..i];
        ok := Attempt();
        if !ok { return false, moved; }
        backup := backup[n := out.value[n]];
        out := Some(out.value - {n});
        assert previous[..i + 1] == previous[..i] + [n];
        moved := moved + [n];
      }
      assert previous[..|previous|] == previous;
      return true, moved;
    }

    /** Moves the new files in, one after the other; on a failure some are placed. */
    method Place(names: seq<string>) returns (ok: bool, placed: seq<string>)
      requires out.Some? && Distinct(names) && forall n :: n in names ==> n in tmp && n !in out.value
      modifies this`out, this`tmp, this`step
      ensures placed <= names && (ok ==> placed == names) && Distinct(placed)
      ensures (forall n :: !fails(n)) ==> ok
      ensures out.Some? && Placed(old(out).value, old(tmp), out.value, placed)
    {
      placed := [];
      for i := 0 to |names|
        invariant placed == names[..i] && out.Some? && Placed(old(out).value, old(tmp), out.value, placed)
        invariant forall n :: n in names && n !in placed ==> n in tmp && tmp[n] == old(tmp)[n]
      {
        var n := names[i];
        assert n in names && n !in names[..i];
        ok := Attempt();
        if !ok { return false, placed; }
        out := Some(out.value[n := tmp[n]]);
        tmp := tmp - {n};
        assert names[..i + 1] == names[..i] + [n];
        placed := placed + [n];
      }
      assert names[..|names|] == names;
      return true, placed;
    }

    /** Undoes the moves: removes what was placed and moves back what was moved, attempting all of it. */
    method Restore(
      moved: seq<string>, placed: seq<string>, created: bool, ghost before: Directory, ghost between: Directory,
      ghost from: Directory)
      returns (r: Result)
      requires out.Some? && Distinct(moved) && Distinct(placed)
      requires Away(before, between, backup, moved) && Placed(between, from, out.value, placed)
      requires forall n :: n in placed ==> n !in between
      requires created ==> before == map[]
      modifies this`out, this`backup
      ensures r != Replaced
      ensures r.Unchanged? ==> out == if created then None else Some(before)
      ensures r.Broken? ==> fixedDirectory || exists n :: stuck(n)
    {
      hide Away, Placed;
      var ok := true;
      ok := Remove(placed, between, from);
      var back := MoveBack(moved, before, between, ok);
      ok := ok && back;
      if created {
        if fixedDirectory { return Broken; }
        if ok { out := None; }
      }
      return if ok then Unchanged else Broken;
    }

    method Remove(placed: seq<string>, ghost between: Directory, ghost from: Directory) returns (ok: bool)
      requires out.Some? && Distinct(placed) && Placed(between, from, out.value, placed)
      requires forall n :: n in placed ==> n !in between
      modifies this`out
      ensures out.Some?
      ensures ok ==> out.value == between
      ensures !ok ==> exists n :: n in placed && stuck(n)
    {
      ok := true;
      for i := 0 to |placed|
        invariant out.Some?
        invariant ok ==> Placed(between, from, out.value, placed[i..])
        invariant !ok ==> exists n :: n in placed && stuck(n)
      {
        var n := placed[i];
        assert placed[i..] == [n] + placed[i + 1..];
        assert n in placed && n !in placed[i + 1..];
        if stuck(n) {
          ok := false;
        } else {
          out := Some(out.value - {n});
        }
      }
      assert placed[|placed|..] == [];
      if ok { PlacedNothing(between, from, out.value); }
    }

    method MoveBack(
      moved: seq<string>, ghost before: Directory, ghost between: Directory, ghost clean: bool) returns (ok: bool)
      requires out.Some? && Distinct(moved) && Away(before, between, backup, moved) && (clean ==> out.value == between)
      modifies this`out, this`backup
      ensures out.Some?
      ensures ok && clean ==> out.value == before
      ensures !ok ==> exists n :: n in moved && stuck(n)
    {
      ok := true;
      assert moved[0..] == moved;
      for i := 0 to |moved|
        invariant out.Some?
        invariant forall n :: n in moved[i..] ==> n in backup && n in before && backup[n] == before[n]
        invariant ok && clean ==> Away(before, out.value, backup, moved[i..])
        invariant !ok ==> exists n :: n in moved && stuck(n)
      {
        var n := moved[i];
        assert moved[i..] == [n] + moved[i + 1..];
        assert n in moved && n !in moved[i + 1..];
        if stuck(n) {
          ok := false;
        } else {
          out := Some(out.value[n := backup[n]]);
        }
      }
      assert moved[|moved|..] == [];
      if ok && clean { AwayNothing(before, out.value, backup); }
    }

    /**
      Replaces the generated files.  Whichever step fails, the directory is as it was unless undoing fails as well; when
      none fails, it holds the new files and the old entries that they do not replace.
     */
    method Replace(
      header: string, tmpListing: seq<string>, outListing: seq<string>) returns (r: Result, ghost names: seq<string>)
      requires backup == map[] && Lists(tmp, tmpListing) && (out.Some? ==> Lists(out.value, outListing))
      modifies this
      ensures r.Unchanged? ==> out == old(out)
      ensures r.Replaced? ==>
                && out.Some? && (forall n :: n in names <==> Listed(old(tmp), n, None))
                && IsReplaced(if old(out).None? then map[] else old(out).value, old(tmp), names, header, out.value)
      ensures r.Broken? ==> fixedDirectory || exists n :: stuck(n)
      ensures (forall n :: !fails(n)) ==> r.Replaced?
    {
      hide Away, Placed;
      names := [];
      var ok := Attempt();
      if !ok { return Unchanged, []; }
      var coming := GoFiles(tmp, tmpListing, None);
      names := coming;
      ok := Attempt();
      if !ok { return Unchanged, names; }
      var present: Directory := if out.None? then map[] else out.value;
      var previous: seq<string> := [];
      if out.Some? { previous := GoFiles(out.value, outListing, Some(header)); }
      var reached;
      reached, previous := AddReplaced(present, previous, coming, header);
      if !reached { return Unchanged, names; }
      ok := Attempt();
      if !ok { return Unchanged, names; }
      var created := out.None?;
      ok := Attempt();
      if !ok { return Unchanged, names; }
      if created { out := Some(map[]); }
      ghost var before := out.value;
      assert before == present;
      var moved, placed: seq<string>;
      ok, moved := MoveAway(previous);
      ghost var between := out.value;
      NothingPlaced(between, tmp);
      if !ok {
        r := Restore(moved, [], created, before, between, tmp);
        return r, names;
      }
      CanPlace(before, between, backup, previous, coming, header);
      ok, placed := Place(coming);
      if !ok {
        r := Restore(moved, placed, created, before, between, old(tmp));
        return r, names;
      }
      Finished(before, between, backup, old(tmp), out.value, previous, coming, header);
      return Replaced, names;
    }

    /** Adds the entries that new files replace; false when one cannot be looked up. */
    method AddReplaced(present: Directory, generated: seq<string>, names: seq<string>, ghost header: string)
      returns (ok: bool, previous: seq<string>)
      requires Distinct(generated) && Distinct(names)
      requires forall n :: n in generated <==> Listed(present, n, Some(header))
      modifies this`step
      ensures ok ==> Distinct(previous) && forall n :: n in previous <==> IsPrevious(present, names, header, n)
      ensures (forall n :: !fails(n)) ==> ok
    {
      previous := generated;
      for i := 0 to |names|
        invariant Distinct(previous)
        invariant forall n :: n in previous <==> Listed(present, n, Some(header)) || (n in present && n in names[..i])
      {
        var n := names[i];
        assert names[..i + 1] == names[..i] + [n];
        var found := Attempt();
        if !found { return false, []; }
        if n in present && n !in previous { previous := previous + [n]; }
      }
      assert names[..|names|] == names;
      return true, previous;
    }
  }

  /** `now` is `before` without the moved files, which are in the backup. */
  ghost predicate Away(before: Directory, now: Directory, backup: Directory, moved: seq<string>) {
    && (forall n :: n in now <==> n in before && n !in moved)
    && (forall n :: n in now ==> now[n] == before[n])
    && (forall n :: n in moved ==> n in before && n in backup && backup[n] == before[n])
  }

  /** `now` is `between` with the placed files. */
  ghost predicate Placed(between: Directory, from: Directory, now: Directory, placed: seq<string>) {
    && (forall n :: n in now <==> n in between || n in placed)
    && (forall n :: n in placed ==> n in from && n in now && now[n] == from[n])
    && (forall n :: n in now && n !in placed ==> now[n] == between[n])
  }

  lemma PlacedNothing(between: Directory, from: Directory, now: Directory)
    requires Placed(between, from, now, [])
    ensures now == between
  {
  }

  lemma AwayNothing(before: Directory, now: Directory, backup: Directory)
    requires Away(before, now, backup, [])
    ensures now == before
  {
  }

  lemma NothingPlaced(between: Directory, from: Directory)
    ensures Placed(between, from, between, [])
  {
  }

  /** Where the previous files are away, no new file stands on another. */
  lemma CanPlace(
    before: Directory, between: Directory, backup: Directory, previous: seq<string>, names: seq<string>, header: string)
    requires Away(before, between, backup, previous)
    requires forall n :: n in previous <==> IsPrevious(before, names, header, n)
    ensures forall n :: n in names ==> n !in between
  {
  }

  lemma Finished(before: Directory, between: Directory, backup: Directory, tmp: Directory, now: Directory,
                 previous: seq<string>, names: seq<string>, header: string)
    requires Away(before, between, backup, previous) && Placed(between, tmp, now, names)
    requires forall n :: n in previous <==> IsPrevious(before, names, header, n)
    ensures IsReplaced(before, tmp, names, header, now)
  {
  }

  /** A replacement keeps every entry that no new file replaces and that is not a generated file, as it was. */
  lemma ReplacedKeepsOthers(
    before: Directory, tmp: Directory, names: seq<string>, header: string, now: Directory, n: string)
    requires IsReplaced(before, tmp, names, header, now) && n in before && n !in names
    requires before[n].Folder? || |n| < 3 || n[|n| - 3..] != ".go" || !(header <= before[n].text)
    ensures n in now && now[n] == before[n]
  {
  }

  /** A generated file that is generated no more is gone. */
  lemma ReplacedDropsGenerated(
    before: Directory, tmp: Directory, names: seq<string>, header: string, now: Directory, n: string)
    requires IsReplaced(before, tmp, names, header, now) && n in before && n !in names
    requires before[n].File? && |n| >= 3 && n[|n| - 3..] == ".go" && header <= before[n].text
    ensures n !in now
  {
  }
}
