// The demo reset: one SQL transaction and a directory of files that must change together. Any step
// may raise an error, and at any step the process may be killed.

module Reset {
  import opened Options

  const LOCK := "server.lock"

  /** What becomes of a step: done, an error, or the end of the process. */
  datatype Fate = Goes | Raises | Dies

  datatype Outcome =
    | Refused         // before anything was touched
    | RolledBack      // an error undone
    | Interrupted     // an error on the way back: nothing committed, some files still in the quarantine
    | Done
    | LeftBehind      // committed, but the quarantine could not be emptied
    | Killed

  type Files = map<string, string>

  /** What the transaction's statements make of the database, one after the other. */
  function Applied<Db>(statements: seq<Db -> Db>, db: Db): Db {
    if statements == [] then db
    else statements[|statements| - 1](Applied(statements[..|statements| - 1], db))
  }

  /** One more statement is applied to what the others have made ... */
  lemma {:induction false} AppliedLast<Db>(statements: seq<Db -> Db>, f: Db -> Db, db: Db)
    ensures Applied(statements + [f], db) == f(Applied(statements, db))
  {
    assert (statements + [f])[..|statements|] == statements;
  }

  /** ... and so are many. */
  lemma {:induction false} AppliedAppend<Db>(first: seq<Db -> Db>, second: seq<Db -> Db>, db: Db)
    ensures Applied(first + second, db) == Applied(second, Applied(first, db))
  {
    if second == [] {
      assert first + second == first;
    } else {
      var front, last := second[..|second| - 1], second[|second| - 1];
      AppliedAppend(first, front, db);
      AppliedLast(first + front, last, db);
      AppliedLast(front, last, Applied(first, db));
      assert first + second == first + front + [last] && second == front + [last];
    }
  }

  class Deployment<Db(0)> {
    var database: Db
    var dir: Files
    var trash: Option<Files>

    // What will happen at each step, and how many steps there have been.
    const fates: nat -> Fate
    var steps: nat

    ghost predicate NothingFails() {
      forall n :: fates(n) == Goes
    }

    ghost predicate NeverKilled() {
      forall n :: fates(n) != Dies
    }

    ghost predicate NothingFailsFrom(k: nat) {
      forall n :: n >= k ==> fates(n) == Goes
    }

    /** At most one step fails. */
    ghost predicate OneFailure() {
      forall m, n :: fates(m) != Goes && fates(n) != Goes ==> m == n
    }

    /** Nothing has been lost: every file is in the directory or in the quarantine. */
    ghost predicate AllHere(files: Files)
      reads this
    {
      match trash
      case None => dir == files
      case Some(t) => dir.Keys !! t.Keys && dir + t == files && LOCK !in t
    }

    constructor (database: Db, dir: Files, trash: Option<Files>, fates: nat -> Fate)
      ensures this.database == database && this.dir == dir && this.trash == trash && this.fates == fates
    {
      this.database, this.dir, this.trash := database, dir, trash;
      this.fates, steps := fates, 0;
    }

    method Next() returns (fate: Fate)
      modifies `steps
      ensures fate == fates(old(steps)) && steps == old(steps) + 1
    {
      fate := fates(steps);
      steps := steps + 1;
    }

    /** One file goes into the quarantine. */
    method Rename(name: string, ghost files: Files)
      requires trash.Some? && AllHere(files) && name in dir && name != LOCK
      modifies `dir, `trash
      ensures AllHere(files) && trash.Some? && trash.value.Keys == old(trash).value.Keys + {name}
      ensures dir == old(dir) - {name}
    {
      RenameAway(dir, trash.value, name);
      trash := Some(trash.value[name := dir[name]]);
      dir := dir - {name};
    }

    /** One turn of the loop. An error may strike before the rename, or between it and its record: then `gap`
        is a file in the quarantine that the record does not list. */
    method MoveOne(name: string, moved: seq<string>, ghost files: Files)
      returns (fate: Fate, more: seq<string>, ghost gap: Option<string>)
      requires trash.Some? && AllHere(files) && name in dir && name != LOCK
      requires Lists(moved, None, trash.value.Keys)
      modifies `dir, `trash, `steps
      ensures trash.Some? && AllHere(files) && Lists(more, gap, trash.value.Keys)
      ensures fate == Goes ==> gap == None && dir == old(dir) - {name}
      ensures dir == old(dir) || dir == old(dir) - {name}
      ensures steps > old(steps) && fates(steps - 1) == fate
    {
      more, gap := moved, None;
      fate := Next();
      if fate == Goes {
        ListsGap(moved, trash.value.Keys, name);
        Rename(name, files);
        fate := Next();
        if fate == Goes {
          more := moved + [name];
        } else {
          gap := Some(name);
        }
      }
    }

    /** Move every file but the lock into the quarantine, remembering the order. */
    method Quarantine() returns (fate: Fate, moved: seq<string>, ghost gap: Option<string>)
      requires trash == Some(map[]) && LOCK in dir
      modifies `dir, `trash, `steps
      ensures trash.Some? && AllHere(old(dir))
      ensures LOCK in dir
      ensures Lists(moved, gap, trash.value.Keys)
      ensures fate == Goes ==> gap == None && dir.Keys == {LOCK}
      ensures fate != Goes ==> steps > old(steps) && fates(steps - 1) == fate
    {
      moved, gap := [], None;
      var names := dir.Keys - {LOCK};
      fate := Goes;
      while names != {}
        invariant trash.Some? && AllHere(old(dir))
        invariant dir.Keys == names + {LOCK} && LOCK !in names
        invariant gap == None && Lists(moved, None, trash.value.Keys)
        invariant fate == Goes && steps >= old(steps)
        decreases names
      {
        var name :| name in names;
        fate, moved, gap := MoveOne(name, moved, old(dir));
        if fate != Goes {
          return;
        }
        names := names - {name};
      }
    }

    /** Undo the moves, the last one first, and drop the empty quarantine. A rename back may fail too, and so
        does dropping a quarantine that is not empty. */
    method PutBack(moved: seq<string>, ghost gap: Option<string>, files: Files) returns (fate: Fate)
      requires AllHere(files)
      requires trash == None ==> moved == []
      requires trash.Some? ==> Lists(moved, gap, trash.value.Keys)
      modifies this
      ensures AllHere(files) && database == old(database)
      ensures fate == Goes ==> trash == None && dir == files
      ensures fate == Raises ==> trash.Some?
      ensures NeverKilled() ==> fate != Dies
      ensures NothingFailsFrom(old(steps)) && (old(trash) == None || gap == None) ==> fate == Goes
      ensures NothingFailsFrom(old(steps)) && fate != Goes ==>
                fate == Raises && gap.Some? && trash.Some? && trash.value.Keys == {gap.value}
    {
      fate := Goes;
      if trash == None {
        return;
      }
      var left := moved;
      while left != []
        invariant trash.Some? && AllHere(files) && database == old(database) && steps >= old(steps)
        invariant Lists(left, gap, trash.value.Keys)
        decreases |left|
      {
        fate := Next();
        if fate != Goes {
          return;
        }
        var name := left[|left| - 1];
        RenameBack(dir, trash.value, name);
        LastIsGone(left, gap, trash.value.Keys);
        dir := dir[name := trash.value[name]];
        trash := Some(trash.value - {name});
        left := left[..|left| - 1];
      }
      fate := Next();
      if fate != Goes {
        return;
      }
      if trash.value != map[] {
        return Raises;
      }
      assert dir + map[] == dir;
      trash := None;
    }

    /** Empty the quarantine; what cannot be removed stays. */
    method RemoveTrash() returns (fate: Fate)
      requires trash.Some?
      modifies this
      ensures dir == old(dir) && database == old(database)
      ensures fate == Goes ==> trash == None
      ensures fate != Goes ==> trash.Some? && trash.value.Items <= old(trash.value.Items)
      ensures (NothingFails() ==> fate == Goes) && (NeverKilled() ==> fate != Dies)
    {
      var names := trash.value.Keys;
      while names != {}
        invariant dir == old(dir) && database == old(database)
        invariant trash.Some? && trash.value.Keys == names && trash.value.Items <= old(trash.value.Items)
        decreases names
      {
        var name :| name in names;
        fate := Next();
        if fate != Goes {
          return;
        }
        trash := Some(trash.value - {name});
        names := names - {name};
      }
      fate := Next();
      if fate == Goes {
        trash := None;
      }
    }

    /** The whole reset. `seedOk` is the validation of the seed, `lockFree` whether nobody else holds the
        lock; the statements run in one transaction, whose commit is one step. */
    method Run(seedOk: bool, lockFree: bool, statements: seq<Db -> Db>) returns (outcome: Outcome)
      modifies this
      ensures outcome == Refused <==> !seedOk || old(trash).Some? || !lockFree
      ensures outcome != Refused && NothingFails() ==> outcome == Done
      ensures NeverKilled() ==> outcome != Killed
      ensures outcome == Refused ==>
                database == old(database) && trash == old(trash) && (dir == old(dir) || dir == WithLock(old(dir)))
      ensures outcome == RolledBack ==>
                database == old(database) && trash == None && dir == WithLock(old(dir))
      ensures outcome == Interrupted ==>
                database == old(database) && trash.Some? && AllHere(WithLock(old(dir)))
      ensures outcome == Interrupted && OneFailure() ==> OneFileLeft(trash.value, dir, WithLock(old(dir)))
      ensures outcome == Done ==>
                database == Applied(statements, old(database)) && trash == None && dir.Keys == {LOCK}
      ensures outcome == LeftBehind ==>
                && database == Applied(statements, old(database)) && dir.Keys == {LOCK}
                && trash.Some? && trash.value.Items <= WithLock(old(dir)).Items
      ensures outcome == Killed ==>
                || (database == old(database) && AllHere(WithLock(old(dir))))
                || (database == Applied(statements, old(database)) && dir.Keys == {LOCK}
                    && (trash.Some? ==> trash.value.Items <= WithLock(old(dir)).Items))
      ensures LOCK in old(dir) ==> LOCK in dir && dir[LOCK] == old(dir)[LOCK]
      ensures LOCK !in old(dir) && LOCK in dir ==> dir[LOCK] == ""
    {
      if !seedOk || trash.Some? || !lockFree {
        return Refused;
      }
      dir := WithLock(dir);
      ghost var before := dir;
      var files := dir;
      var fate, moved, gap := Transaction(statements);
      if fate == Dies {
        return Killed;
      }
      if fate == Raises {
        ghost var at := steps;
        fate := PutBack(moved, gap, files);
        if OneFailure() && fate == Raises {
          OneLeftMeans(dir, trash.value, before, gap.value);
        }
        return match fate case Goes => RolledBack case Raises => Interrupted case Dies => Killed;
      }
      fate := RemoveTrash();
      return match fate case Goes => Done case Raises => LeftBehind case Dies => Killed;
    }

    /** The statements, then the quarantine, then the commit. */
    method Transaction(statements: seq<Db -> Db>) returns (fate: Fate, moved: seq<string>, ghost gap: Option<string>)
      requires trash == None && LOCK in dir
      modifies this
      ensures AllHere(old(dir)) && LOCK in dir
      ensures trash == None ==> moved == []
      ensures trash.Some? ==> Lists(moved, gap, trash.value.Keys)
      ensures fate == Goes ==>
                database == Applied(statements, old(database)) && trash.Some? && dir.Keys == {LOCK}
      ensures fate != Goes ==> database == old(database) && steps > 0 && fates(steps - 1) == fate
    {
      moved, gap := [], None;
      var working;
      fate, working := Executed(statements);
      if fate == Goes {
        trash := Some(map[]);
        assert dir + map[] == dir;
        fate, moved, gap := Quarantine();
        if fate == Goes {
          fate := Next();
          if fate == Goes {
            database := working;
          }
        }
      }
    }

    /** The statements on a working copy, until one fails. */
    method Executed(statements: seq<Db -> Db>) returns (fate: Fate, working: Db)
      modifies `steps
      ensures fate == Goes ==> working == Applied(statements, database)
      ensures steps > 0 && fates(steps - 1) == fate
    {
      working := database;
      fate := Next();
      for i := 0 to |statements|
        invariant fate == Goes ==> working == Applied(statements[..i], database)
        invariant steps > 0 && fates(steps - 1) == fate
      {
        if fate == Goes {
          working := statements[i](working);
          assert statements[..i + 1][..i] == statements[..i];
          fate := Next();
        }
      }
      assert statements[..|statements|] == statements;
    }
  }

  lemma RenameAway(dir: Files, trash: Files, name: string)
    requires dir.Keys !! trash.Keys && name in dir
    ensures (dir - {name}).Keys !! trash[name := dir[name]].Keys
    ensures (dir - {name}) + trash[name := dir[name]] == dir + trash
  {
  }

  lemma RenameBack(dir: Files, trash: Files, name: string)
    requires dir.Keys !! trash.Keys && name in trash
    ensures dir[name := trash[name]].Keys !! (trash - {name}).Keys
    ensures dir[name := trash[name]] + (trash - {name}) == dir + trash
  {
  }

  /** The record names the quarantined files, each once, except for the gap. */
  ghost predicate Lists(left: seq<string>, gap: Option<string>, names: set<string>) {
    && (forall name :: name in names <==> name in left || gap == Some(name))
    && (forall i, j :: 0 <= i < j < |left| ==> left[i] != left[j])
    && (gap.Some? ==> gap.value !in left)
  }

  lemma ListsGap(left: seq<string>, names: set<string>, name: string)
    requires Lists(left, None, names) && name !in names
    ensures Lists(left, Some(name), names + {name}) && Lists(left + [name], None, names + {name})
  {
  }

  lemma LastIsGone(left: seq<string>, gap: Option<string>, names: set<string>)
    requires left != [] && Lists(left, gap, names)
    ensures Lists(left[..|left| - 1], gap, names - {left[|left| - 1]})
  {
    var front, last := left[..|left| - 1], left[|left| - 1];
    assert left == front + [last];
  }

  /** One file is still in the quarantine, all others are where they were. */
  ghost predicate OneFileLeft(trash: Files, dir: Files, files: Files) {
    exists name :: name in files && trash == map[name := files[name]] && dir == files - {name}
  }

  lemma OneLeftMeans(dir: Files, trash: Files, files: Files, name: string)
    requires dir.Keys !! trash.Keys && dir + trash == files && trash.Keys == {name}
    ensures OneFileLeft(trash, dir, files)
  {
    assert name in files && files[name] == trash[name];
    assert trash == map[name := files[name]] && dir == files - {name};
  }

  /** Taking the lock leaves its file behind. */
  function WithLock(files: Files): Files {
    if LOCK in files then files else files[LOCK := ""]
  }
}
