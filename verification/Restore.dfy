/** What a restore achieves, and whether a backup can be restored: exactly for relative
    names. */
module Restore {
  import opened Options
  import opened Lists
  import opened Backup

  predicate Moves(files: Files, live: Path) {
    live in files && Bak(live) !in files
  }

  /** A stale ".bak" file keeps this one from being moved away. */
  predicate Blocked(files: Files, live: Path) {
    live in files && Bak(live) in files
  }

  /** Something will still be where the file is to be copied to. */
  predicate Occupied(root: Root, files: Files, x: Name) {
    Inside(root, x) in files && !(Inside(root, x) == Live(root, x) && Moves(files, Live(root, x)))
  }

  predicate Fails(root: Root, files: Files, backup: Files, x: Name, failing: set<Name>) {
    Stripped(x) in backup && (Occupied(root, files, x) || x in failing)
  }

  /** The paths of one name in the middle of a restore, after it was handled. */
  function Midway(root: Root, files: Files, backup: Files, copied: bool, x: Name, k: Path): Option<string> {
    var live := Live(root, x);
    if copied && k == Inside(root, x) then Get(backup, Stripped(x))
    else if Moves(files, live) && k == live then None
    else if Moves(files, live) && k == Bak(live) then Get(files, live)
    else Get(files, k)
  }

  ghost predicate FilesMidway(root: Root, now: Files, files: Files, backup: Files, done: set<Name>, copied: set<Name>) {
    && (forall x, k :: x in done && k in Spots(root, x) ==>
          Get(now, k) == Midway(root, files, backup, x in copied, x, k))
    && (forall k :: (forall x :: x in done ==> k !in Spots(root, x)) ==> Get(now, k) == Get(files, k))
  }

  ghost predicate ListsMidway(root: Root, p: Progress, files: Files, done: set<Name>, copied: set<Name>) {
    && (forall k :: k in p.moved <==> k in MovedOf(root, files, done))
    && (forall k :: k in p.copied <==> k in LivesOf(root, copied))
    && (forall i, j :: 0 <= i < j < |p.moved| ==> p.moved[i] != p.moved[j])
  }

  ghost predicate CopiesMidway(root: Root, files: Files, backup: Files, done: set<Name>, copied: set<Name>) {
    copied <= done && forall x :: x in copied ==> Stripped(x) in backup && !Occupied(root, files, x)
  }

  /** The names in `done` have been handled, those of them in `copied` to the end. */
  ghost predicate Underway(root: Root, p: Progress, files: Files, backup: Files, done: set<Name>, copied: set<Name>) {
    && FilesMidway(root, p.files, files, backup, done, copied)
    && ListsMidway(root, p, files, done, copied)
    && CopiesMidway(root, files, backup, done, copied)
  }

  ghost function MovedOf(root: Root, files: Files, done: set<Name>): set<Path> {
    set x | x in done && Moves(files, Live(root, x)) :: Live(root, x)
  }

  ghost function LivesOf(root: Root, names: set<Name>): set<Path> {
    set x | x in names :: Live(root, x)
  }

  /** No two names share a path, and none has its ".bak" where it is copied to. */
  ghost predicate Apart(root: Root, names: set<Name>) {
    && (forall x, y :: x in names && y in names && x != y ==> Spots(root, x) !! Spots(root, y))
    && (forall x :: x in names ==> Bak(Live(root, x)) != Inside(root, x))
  }

  lemma FreshSpots(root: Root, p: Progress, files: Files, backup: Files, done: set<Name>, copied: set<Name>, x: Name)
    requires Underway(root, p, files, backup, done, copied) && Apart(root, done + {x}) && x !in done
    ensures forall k :: k in Spots(root, x) ==> Get(p.files, k) == Get(files, k)
    ensures Live(root, x) !in p.moved && Live(root, x) !in p.copied
  {
    forall k | k in Spots(root, x)
      ensures forall y :: y in done ==> k !in Spots(root, y)
    {
    }
    assert Live(root, x) in Spots(root, x);
    assert forall y :: y in done ==> Live(root, y) in Spots(root, y);
  }

  lemma OneSpot(root: Root, p: Progress, files: Files, backup: Files, x: Name, failing: set<Name>, k: Path)
    requires p.ok && forall k :: k in Spots(root, x) ==> Get(p.files, k) == Get(files, k)
    requires Bak(Live(root, x)) != Inside(root, x)
    ensures var q := RestoreOne(root, p, backup, x, failing);
            var copies := Stripped(x) in backup && q.ok;
            && (q.ok <==> !Fails(root, files, backup, x, failing))
            && Get(q.files, k)
            == (if k in Spots(root, x) then Midway(root, files, backup, copies, x, k) else Get(p.files, k))
            && q.moved == (if Moves(files, Live(root, x)) then p.moved + [Live(root, x)] else p.moved)
            && q.copied == (if copies then p.copied + [Live(root, x)] else p.copied)
  {
    var live, inside := Live(root, x), Inside(root, x);
    PathsAgree(root, x);
    assert live in Spots(root, x) && inside in Spots(root, x) && Bak(live) in Spots(root, x);
    assert Get(p.files, live) == Get(files, live) && Get(p.files, inside) == Get(files, inside);
    assert Get(p.files, Bak(live)) == Get(files, Bak(live));
  }

  /** `copied` with the name, if it was copied. */
  function NowCopied(copied: set<Name>, backup: Files, x: Name, q: Progress): set<Name> {
    if Stripped(x) in backup && q.ok then copied + {x} else copied
  }

  lemma FilesOneMore(root: Root, p: Progress, files: Files, backup: Files, done: set<Name>, copied: set<Name>, x: Name,
                     failing: set<Name>)
    requires FilesMidway(root, p.files, files, backup, done, copied) && copied <= done
    requires Apart(root, done + {x}) && x !in done && p.ok
    requires forall k :: k in Spots(root, x) ==> Get(p.files, k) == Get(files, k)
    ensures var q := RestoreOne(root, p, backup, x, failing);
            FilesMidway(root, q.files, files, backup, done + {x}, NowCopied(copied, backup, x, q))
  {
    var q := RestoreOne(root, p, backup, x, failing);
    var now := NowCopied(copied, backup, x, q);
    forall y, k | y in done + {x} && k in Spots(root, y)
      ensures Get(q.files, k) == Midway(root, files, backup, y in now, y, k)
    {
      OneSpot(root, p, files, backup, x, failing, k);
      if y != x { assert k !in Spots(root, x); }
    }
    forall k | forall y :: y in done + {x} ==> k !in Spots(root, y)
      ensures Get(q.files, k) == Get(files, k)
    {
      OneSpot(root, p, files, backup, x, failing, k);
      assert x in done + {x} && forall y :: y in done ==> y in done + {x};
    }
  }

  lemma ListsOneMore(root: Root, p: Progress, q: Progress, files: Files, done: set<Name>, copied: set<Name>, x: Name,
                     copies: bool)
    requires ListsMidway(root, p, files, done, copied) && Live(root, x) !in p.moved
    requires q.moved == (if Moves(files, Live(root, x)) then p.moved + [Live(root, x)] else p.moved)
    requires q.copied == (if copies then p.copied + [Live(root, x)] else p.copied)
    ensures ListsMidway(root, q, files, done + {x}, if copies then copied + {x} else copied)
  {
    var now := if copies then copied + {x} else copied;
    var moving := if Moves(files, Live(root, x)) then {Live(root, x)} else {};
    assert MovedOf(root, files, done + {x}) == MovedOf(root, files, done) + moving;
    assert LivesOf(root, now) == LivesOf(root, copied) + if copies then {Live(root, x)} else {};
  }

  lemma OneRestored(root: Root, p: Progress, files: Files, backup: Files, done: set<Name>, copied: set<Name>, x: Name,
                    failing: set<Name>)
    requires Underway(root, p, files, backup, done, copied) && Apart(root, done + {x}) && x !in done && p.ok
    ensures var q := RestoreOne(root, p, backup, x, failing);
            && (q.ok <==> !Fails(root, files, backup, x, failing))
            && Underway(root, q, files, backup, done + {x}, NowCopied(copied, backup, x, q))
  {
    var q := RestoreOne(root, p, backup, x, failing);
    FreshSpots(root, p, files, backup, done, copied, x);
    OneSpot(root, p, files, backup, x, failing, Live(root, x));
    FilesOneMore(root, p, files, backup, done, copied, x, failing);
    ListsOneMore(root, p, q, files, done, copied, x, Stripped(x) in backup && q.ok);
  }

  // Rolling back.

  lemma BakIsInjective(a: Path, b: Path)
    requires Bak(a) == Bak(b)
    ensures a == b
  {
    assert Bak(a)[..|a|] == a && Bak(b)[..|b|] == b;
  }

  lemma {:induction false} RenamedBackAt(files: Files, moved: seq<Path>, k: Path)
    requires forall i, j :: 0 <= i < j < |moved| ==> moved[i] != moved[j]
    requires forall x, y :: x in moved && y in moved ==> x != Bak(y)
    requires forall x :: x in moved ==> x !in files && Bak(x) in files
    ensures k in moved ==> Get(RenamedBack(files, moved), k) == Get(files, Bak(k))
    ensures forall x :: x in moved && k == Bak(x) ==> Get(RenamedBack(files, moved), k) == None
    ensures k !in moved && (forall x :: x in moved ==> k != Bak(x))
            ==> Get(RenamedBack(files, moved), k) == Get(files, k)
    decreases |moved|
  {
    if moved != [] {
      var x, rest := moved[0], moved[1..];
      var next := Renamed(files, Bak(x), x);
      assert moved == [x] + rest;
      forall y | y in rest
        ensures y !in next && Bak(y) in next && Bak(y) != Bak(x)
      {
        if Bak(y) == Bak(x) { BakIsInjective(y, x); }
      }
      RenamedBackAt(next, rest, k);
      if k in rest { assert Bak(k) != x && Bak(k) != Bak(x); }
    }
  }

  /** What a rollback leaves of the paths of one name: everything as before, except that
      for an absolute name the new copy stays, and an old file that was not moved away
      is deleted in its place. */
  function RolledBack(root: Root, files: Files, backup: Files, copied: bool, x: Name, k: Path): Option<string> {
    if copied && Absolute(x) && k == Inside(root, x) then Get(backup, Stripped(x))
    else if copied && Absolute(x) && k == Live(root, x) && Blocked(files, Live(root, x)) then None
    else Get(files, k)
  }

  lemma MovedIsMissing(root: Root, p: Progress, files: Files, backup: Files, done: set<Name>, copied: set<Name>,
                       m: Path)
    requires Underway(root, p, files, backup, done, copied) && Apart(root, done) && m in p.moved
    ensures var cleared := WithoutAll(p.files, p.copied);
            m !in cleared && Bak(m) in cleared && Get(cleared, Bak(m)) == Get(files, m)
    ensures forall y :: y in p.moved ==> m != Bak(y)
  {
    var x :| x in done && Moves(files, Live(root, x)) && m == Live(root, x);
    PathsAgree(root, x);
    assert m in Spots(root, x) && Bak(m) in Spots(root, x);
    assert Get(p.files, m) == Midway(root, files, backup, x in copied, x, m);
    assert Get(p.files, Bak(m)) == Midway(root, files, backup, x in copied, x, Bak(m));
    LivesAreNoBaks(root, done, x);
  }

  lemma LivesAreNoBaks(root: Root, done: set<Name>, x: Name)
    requires Apart(root, done) && x in done
    ensures forall y :: y in done ==> Bak(Live(root, x)) != Live(root, y) && Live(root, x) != Bak(Live(root, y))
  {
    forall y | y in done
      ensures Bak(Live(root, x)) != Live(root, y) && Live(root, x) != Bak(Live(root, y))
    {
      PathsAgree(root, y);
      assert Live(root, y) in Spots(root, y) && Bak(Live(root, y)) in Spots(root, y);
      assert Live(root, x) in Spots(root, x) && Bak(Live(root, x)) in Spots(root, x);
    }
  }

  lemma RecoveredAt(root: Root, p: Progress, files: Files, backup: Files, done: set<Name>, copied: set<Name>, x: Name,
                    k: Path)
    requires Underway(root, p, files, backup, done, copied) && Apart(root, done) && x in done && k in Spots(root, x)
    ensures Get(Recovered(p), k) == RolledBack(root, files, backup, x in copied, x, k)
  {
    var cleared := WithoutAll(p.files, p.copied);
    forall m | m in p.moved
      ensures m !in cleared && Bak(m) in cleared && Get(cleared, Bak(m)) == Get(files, m)
      ensures forall y :: y in p.moved ==> m != Bak(y)
    {
      MovedIsMissing(root, p, files, backup, done, copied, m);
    }
    RenamedBackAt(cleared, p.moved, k);
    SpotsInLists(root, p, files, backup, done, copied, x, k);
    PathsAgree(root, x);
    assert Get(p.files, k) == Midway(root, files, backup, x in copied, x, k);
  }

  /** Which paths of a name are in the two lists. */
  lemma SpotsInLists(root: Root, p: Progress, files: Files, backup: Files, done: set<Name>, copied: set<Name>,
                     x: Name, k: Path)
    requires Underway(root, p, files, backup, done, copied) && Apart(root, done) && x in done && k in Spots(root, x)
    ensures k in p.moved <==> k == Live(root, x) && Moves(files, Live(root, x))
    ensures k in p.copied <==> k == Live(root, x) && x in copied
    ensures (exists m :: m in p.moved && k == Bak(m)) <==> k == Bak(Live(root, x)) && Moves(files, Live(root, x))
  {
    forall y | y in done && y != x
      ensures k != Live(root, y) && k != Bak(Live(root, y))
    {
      assert Live(root, y) in Spots(root, y) && Bak(Live(root, y)) in Spots(root, y);
    }
    if k == Bak(Live(root, x)) && Moves(files, Live(root, x)) { assert Live(root, x) in p.moved; }
    if m :| m in p.moved && k == Bak(m) {
      var y :| y in done && Moves(files, Live(root, y)) && m == Live(root, y);
      assert y == x;
    }
  }

  lemma RecoveredElsewhere(root: Root, p: Progress, files: Files, backup: Files, done: set<Name>, copied: set<Name>,
                           k: Path)
    requires Underway(root, p, files, backup, done, copied) && Apart(root, done)
    requires forall x :: x in done ==> k !in Spots(root, x)
    ensures Get(Recovered(p), k) == Get(files, k)
  {
    var cleared := WithoutAll(p.files, p.copied);
    forall m | m in p.moved
      ensures m !in cleared && Bak(m) in cleared
      ensures forall y :: y in p.moved ==> m != Bak(y)
      ensures k != m && k != Bak(m)
    {
      MovedIsMissing(root, p, files, backup, done, copied, m);
      var x :| x in done && Moves(files, Live(root, x)) && m == Live(root, x);
      assert m in Spots(root, x) && Bak(m) in Spots(root, x);
    }
    RenamedBackAt(cleared, p.moved, k);
    assert forall x :: x in done ==> Live(root, x) in Spots(root, x);
  }

  // Whole restores.

  /** The position of the first name that fails, or the length. */
  function FirstFailing(root: Root, files: Files, backup: Files, names: seq<Name>, failing: set<Name>): (i: nat)
    ensures i <= |names| && (i < |names| ==> Fails(root, files, backup, names[i], failing))
    ensures forall j :: 0 <= j < i ==> !Fails(root, files, backup, names[j], failing)
  {
    if names == [] || Fails(root, files, backup, names[0], failing) then 0
    else 1 + FirstFailing(root, files, backup, names[1..], failing)
  }

  /** The names copied before a restore fails, or all that are in the backup. */
  function CopiedNames(root: Root, files: Files, backup: Files, names: seq<Name>, failing: set<Name>): set<Name> {
    set x | x in names[..FirstFailing(root, files, backup, names, failing)] && Stripped(x) in backup
  }

  /** The names handled, the failing one included. */
  function HandledNames(root: Root, files: Files, backup: Files, names: seq<Name>, failing: set<Name>): set<Name> {
    var i := FirstFailing(root, files, backup, names, failing);
    if i == |names| then Elements(names) else Elements(names[..i + 1])
  }

  lemma {:induction false} RestoreRuns(root: Root, p: Progress, files: Files, backup: Files, done: set<Name>,
                                       copied: set<Name>, names: seq<Name>, failing: set<Name>)
    requires Underway(root, p, files, backup, done, copied) && p.ok && Apart(root, done + Elements(names))
    requires forall i, j :: 0 <= i < j < |names| ==> names[i] != names[j]
    requires forall x :: x in names ==> x !in done
    ensures var q := RestoreAll(root, p, backup, names, failing);
            && (q.ok <==> FirstFailing(root, files, backup, names, failing) == |names|)
            && Underway(root, q, files, backup, done + HandledNames(root, files, backup, names, failing),
                        copied + CopiedNames(root, files, backup, names, failing))
    decreases |names|
  {
    if names == [] {
      assert done + Elements(names) == done;
      assert copied + CopiedNames(root, files, backup, names, failing) == copied;
    } else {
      var x := names[0];
      var q := RestoreOne(root, p, backup, x, failing);
      RestIsApart(root, names, done);
      SetsOneMore(root, files, backup, names, failing, done, copied);
      OneRestored(root, p, files, backup, done, copied, x, failing);
      if q.ok {
        RestoreRuns(root, q, files, backup, done + {x}, NowCopied(copied, backup, x, q), names[1..], failing);
      }
    }
  }

  lemma RestIsApart(root: Root, names: seq<Name>, done: set<Name>)
    requires names != [] && Apart(root, done + Elements(names)) && forall x :: x in names ==> x !in done
    requires forall i, j :: 0 <= i < j < |names| ==> names[i] != names[j]
    ensures var x, rest := names[0], names[1..];
            && Apart(root, done + {x}) && Apart(root, done + {x} + Elements(rest))
            && forall y :: y in rest ==> y !in done + {x}
  {
    assert names == [names[0]] + names[1..];
    assert done + {names[0]} + Elements(names[1..]) == done + Elements(names);
  }

  lemma SetsOneMore(root: Root, files: Files, backup: Files, names: seq<Name>, failing: set<Name>, done: set<Name>,
                    copied: set<Name>)
    requires names != []
    ensures var x, rest := names[0], names[1..];
            if Fails(root, files, backup, x, failing) then
              && done + {x} == done + HandledNames(root, files, backup, names, failing)
              && copied == copied + CopiedNames(root, files, backup, names, failing)
            else
              && done + {x} + HandledNames(root, files, backup, rest, failing)
              == done + HandledNames(root, files, backup, names, failing)
              && (if Stripped(x) in backup then copied + {x} else copied)
               + CopiedNames(root, files, backup, rest, failing)
              == copied + CopiedNames(root, files, backup, names, failing)
  {
    HandledOneMore(root, files, backup, names, failing);
  }

  lemma HandledOneMore(root: Root, files: Files, backup: Files, names: seq<Name>, failing: set<Name>)
    requires names != []
    ensures var x, rest := names[0], names[1..];
            if Fails(root, files, backup, x, failing) then
              && HandledNames(root, files, backup, names, failing) == {x}
              && CopiedNames(root, files, backup, names, failing) == {}
            else
              && HandledNames(root, files, backup, names, failing)
              == {x} + HandledNames(root, files, backup, rest, failing)
              && CopiedNames(root, files, backup, names, failing)
              == (if Stripped(x) in backup then {x} else {}) + CopiedNames(root, files, backup, rest, failing)
  {
    var x, rest, i := names[0], names[1..], FirstFailing(root, files, backup, names, failing);
    if !Fails(root, files, backup, x, failing) {
      assert names[..i] == [x] + rest[..i - 1];
      if i < |names| { assert names[..i + 1] == [x] + rest[..i]; } else { assert names == [x] + rest; }
    }
  }

  lemma WholeRestore(root: Root, files: Files, backup: Files, names: seq<Name>, failing: set<Name>)
    requires WellPlaced(root, names)
    ensures var q := RestoreAll(root, Progress(files, [], [], true), backup, names, failing);
            && (q.ok <==> FirstFailing(root, files, backup, names, failing) == |names|)
            && Underway(root, q, files, backup, HandledNames(root, files, backup, names, failing),
                        CopiedNames(root, files, backup, names, failing))
    ensures Apart(root, Elements(names))
  {
    NamesAreApart(root, names);
    var handled, copied := HandledNames(root, files, backup, names, failing),
        CopiedNames(root, files, backup, names, failing);
    assert {} + Elements(names) == Elements(names) && {} + handled == handled && {} + copied == copied;
    RestoreRuns(root, Progress(files, [], [], true), files, backup, {}, {}, names, failing);
  }

  lemma NamesAreApart(root: Root, names: seq<Name>)
    requires WellPlaced(root, names)
    ensures Apart(root, Elements(names))
    ensures forall i, j :: 0 <= i < j < |names| ==> names[i] != names[j]
  {
    forall i, j | 0 <= i < j < |names|
      ensures names[i] != names[j]
    {
      assert Live(root, names[i]) in Spots(root, names[i]);
    }
  }

  /** What a successful restore makes of the paths of one name. */
  function Restored(root: Root, files: Files, backup: Files, x: Name, k: Path): Option<string> {
    if Stripped(x) in backup && k == Inside(root, x) then Get(backup, Stripped(x))
    else if k == Live(root, x) && Moves(files, k) then None
    else Get(files, k)
  }

  lemma {:induction false} BaksOf(paths: seq<Path>, k: Path)
    ensures k in Baks(paths) <==> exists m :: m in paths && k == Bak(m)
  {
    if paths != [] {
      BaksOf(paths[1..], k);
      assert paths == [paths[0]] + paths[1..];
    }
  }

  lemma CleanedAt(root: Root, p: Progress, files: Files, backup: Files, done: set<Name>, copied: set<Name>, x: Name,
                  k: Path)
    requires Underway(root, p, files, backup, done, copied) && Apart(root, done) && x in done && k in Spots(root, x)
    requires x in copied <==> Stripped(x) in backup
    ensures Get(WithoutAll(p.files, Baks(p.moved)), k) == Restored(root, files, backup, x, k)
  {
    BaksOf(p.moved, k);
    SpotsInLists(root, p, files, backup, done, copied, x, k);
    PathsAgree(root, x);
    assert Get(p.files, k) == Midway(root, files, backup, x in copied, x, k);
  }

  lemma Unhandled(root: Root, files: Files, backup: Files, names: seq<Name>, failing: set<Name>)
    ensures HandledNames(root, files, backup, names, failing) <= Elements(names)
    ensures FirstFailing(root, files, backup, names, failing) == |names| ==>
      HandledNames(root, files, backup, names, failing) == Elements(names)
      && CopiedNames(root, files, backup, names, failing) == set x | x in names && Stripped(x) in backup
  {
    assert names[..|names|] == names;
  }

  /** Each path of each listed name after a restore, which succeeds exactly if no name
      fails. */
  lemma RestoreIsExact(root: Root, files: Files, backup: Files, names: seq<Name>, failing: set<Name>, x: Name, k: Path)
    requires WellPlaced(root, names) && x in names && k in Spots(root, x)
    ensures var (after, ok) := CopyFrom(root, files, backup, names, failing);
            var copied := CopiedNames(root, files, backup, names, failing);
            && (ok <==> forall y :: y in names ==> !Fails(root, files, backup, y, failing))
            && Get(after, k) == if ok then Restored(root, files, backup, x, k)
                                else RolledBack(root, files, backup, x in copied, x, k)
  {
    WholeRestore(root, files, backup, names, failing);
    Unhandled(root, files, backup, names, failing);
    var q := RestoreAll(root, Progress(files, [], [], true), backup, names, failing);
    var done, copied := HandledNames(root, files, backup, names, failing),
        CopiedNames(root, files, backup, names, failing);
    if q.ok {
      CleanedAt(root, q, files, backup, done, copied, x, k);
    } else if x in done {
      RecoveredAt(root, q, files, backup, done, copied, x, k);
    } else {
      assert forall y :: y in done ==> k !in Spots(root, y);
      RecoveredElsewhere(root, q, files, backup, done, copied, k);
    }
  }

  /** No other path is touched, whether a restore succeeds or fails. */
  lemma RestoreTouchesNothingElse(root: Root, files: Files, backup: Files, names: seq<Name>, failing: set<Name>,
                                  k: Path)
    requires WellPlaced(root, names) && forall x :: x in names ==> k !in Spots(root, x)
    ensures Get(CopyFrom(root, files, backup, names, failing).0, k) == Get(files, k)
  {
    WholeRestore(root, files, backup, names, failing);
    Unhandled(root, files, backup, names, failing);
    var q := RestoreAll(root, Progress(files, [], [], true), backup, names, failing);
    var done, copied := HandledNames(root, files, backup, names, failing),
        CopiedNames(root, files, backup, names, failing);
    if q.ok {
      BaksOf(q.moved, k);
      forall m | m in q.moved
        ensures k != Bak(m)
      {
        var x :| x in done && Moves(files, Live(root, x)) && m == Live(root, x);
        assert Bak(m) in Spots(root, x);
      }
    } else {
      RecoveredElsewhere(root, q, files, backup, done, copied, k);
    }
  }

  lemma SameFiles(a: Files, b: Files)
    requires forall k :: Get(a, k) == Get(b, k)
    ensures a == b
  {
    forall k
      ensures k in a <==> k in b
      ensures k in a ==> a[k] == b[k]
    {
      assert Get(a, k) == Get(b, k);
    }
  }

  /** A failed restore leaves the storage exactly as before if and only if no absolute
      name had been copied by then. */
  lemma FailedRestoreIsUndone(root: Root, files: Files, backup: Files, names: seq<Name>, failing: set<Name>)
    requires WellPlaced(root, names) && !CopyFrom(root, files, backup, names, failing).1
    ensures CopyFrom(root, files, backup, names, failing).0 == files <==>
            forall x :: x in CopiedNames(root, files, backup, names, failing) ==> !Absolute(x)
  {
    var after, copied := CopyFrom(root, files, backup, names, failing).0,
        CopiedNames(root, files, backup, names, failing);
    if x :| x in copied && Absolute(x) {
      RestoreIsExact(root, files, backup, names, failing, x, Inside(root, x));
      WholeRestore(root, files, backup, names, failing);
      PathsAgree(root, x);
      assert Get(after, Inside(root, x)) != Get(files, Inside(root, x));
    } else {
      forall k
        ensures Get(after, k) == Get(files, k)
      {
        if x :| x in names && k in Spots(root, x) {
          RestoreIsExact(root, files, backup, names, failing, x, k);
        } else {
          RestoreTouchesNothingElse(root, files, backup, names, failing, k);
        }
      }
      SameFiles(after, files);
    }
  }

  /** Does a successful restore leave this name, where QDir finds it, as in the backup? */
  predicate Arrives(root: Root, files: Files, backup: Files, x: Name) {
    var live := Live(root, x);
    if Stripped(x) !in backup then !Blocked(files, live)
    else Absolute(x) ==> Blocked(files, live) && files[live] == backup[Stripped(x)]
  }

  /** A successful restore leaves all listed files as they are in the backup, or absent,
      exactly if no file missing from the backup is held by a stale ".bak", and every
      absolute name that is in the backup is held by one and was the same already. */
  lemma RestoredExactlyWhen(root: Root, files: Files, backup: Files, names: seq<Name>, failing: set<Name>)
    requires WellPlaced(root, names) && CopyFrom(root, files, backup, names, failing).1
    ensures var after := CopyFrom(root, files, backup, names, failing).0;
            (forall x :: x in names ==> Get(after, Live(root, x)) == Get(backup, Stripped(x))) <==>
            (forall x :: x in names ==> Arrives(root, files, backup, x))
  {
    forall x | x in names
      ensures Get(CopyFrom(root, files, backup, names, failing).0, Live(root, x)) == Get(backup, Stripped(x))
              <==> Arrives(root, files, backup, x)
    {
      RestoreIsExact(root, files, backup, names, failing, x, Live(root, x));
      PathsAgree(root, x);
    }
  }

  // Backup and restore together.

  lemma {:induction false} TreeElsewhere(root: Root, files: Files, names: seq<Name>, failing: set<Name>, x: Name,
                                         k: Path)
    requires k in Spots(root, x) && forall y :: y in names ==> Spots(root, y) !! Spots(root, x)
    ensures Get(TreeCreated(root, files, names, failing).0, k) == Get(files, k)
    decreases |names|
  {
    if names != [] {
      assert names == [names[0]] + names[1..];
      assert Inside(root, names[0]) in Spots(root, names[0]);
      var next := if Live(root, names[0]) in files then files else files[Inside(root, names[0]) := ""];
      TreeElsewhere(root, next, names[1..], failing, x, k);
    }
  }

  /** Existing files are kept; a missing one becomes empty where a relative name is. */
  lemma {:induction false} TreeAt(root: Root, files: Files, names: seq<Name>, failing: set<Name>, x: Name)
    requires WellPlaced(root, names) && x in names && TreeCreated(root, files, names, failing).1
    ensures Get(TreeCreated(root, files, names, failing).0, Live(root, x)) ==
            if Live(root, x) in files || Absolute(x) then Get(files, Live(root, x)) else Some("")
    decreases |names|
  {
    var y, rest, live := names[0], names[1..], Live(root, x);
    assert names == [y] + rest;
    var next := if Live(root, y) in files then files else files[Inside(root, y) := ""];
    PathsAgree(root, x);
    NamesAreApart(root, names);
    assert live in Spots(root, x) && Inside(root, y) in Spots(root, y);
    if y == x {
      TreeElsewhere(root, next, rest, failing, x, live);
    } else {
      TreeAt(root, next, rest, failing, x);
    }
  }

  lemma {:induction false} CopyOutElsewhere(root: Root, d: Dirs, names: seq<Name>, failing: set<Name>, x: Name)
    requires forall y :: y in names ==> Spots(root, y) !! Spots(root, x)
    ensures var e := CopiedOut(root, d, names, failing).0;
            && Get(e.files, Live(root, x)) == Get(d.files, Live(root, x))
            && Get(e.backup, Stripped(x)) == Get(d.backup, Stripped(x))
    decreases |names|
  {
    if names != [] {
      var y := names[0];
      var removed := TargetRemoved(d, y);
      assert names == [y] + names[1..] && y in names;
      assert Live(root, y) in Spots(root, y) && Inside(root, y) in Spots(root, y);
      assert Live(root, x) in Spots(root, x) && Inside(root, x) in Spots(root, x);
      assert Stripped(y) != Stripped(x) && Live(root, y) != Live(root, x);
      CopyOutElsewhere(root, removed, names[1..], failing, x);
      if Inside(root, y) in removed.files {
        var copied := removed.(backup := removed.backup[Stripped(y) := removed.files[Inside(root, y)]]);
        CopyOutElsewhere(root, copied, names[1..], failing, x);
      }
    }
  }

  /** A copy out succeeds exactly if no listed file that exists where it is looked for fails
      to be copied, or has a stale copy of an absolute name in its place. */
  lemma {:induction false} CopiesOutExactlyWhen(root: Root, d: Dirs, names: seq<Name>, failing: set<Name>)
    requires WellPlaced(root, names)
    ensures CopiedOut(root, d, names, failing).1 <==> forall x :: x in names ==> CopiesOut(root, d, failing, x)
    decreases |names|
  {
    if names != [] {
      var y, rest := names[0], names[1..];
      var removed := TargetRemoved(d, y);
      var next := if Inside(root, y) !in removed.files then removed
                  else removed.(backup := removed.backup[Stripped(y) := removed.files[Inside(root, y)]]);
      assert names == [y] + rest;
      NamesAreApart(root, names);
      PathsAgree(root, y);
      assert Live(root, y) in Spots(root, y) && Inside(root, y) in Spots(root, y);
      forall x | x in rest
        ensures CopiesOut(root, next, failing, x) <==> CopiesOut(root, d, failing, x)
      {
        assert Live(root, x) in Spots(root, x) && Inside(root, x) in Spots(root, x);
      }
      CopiesOutExactlyWhen(root, next, rest, failing);
      assert CopiedOut(root, d, names, failing).1
          == (CopiesOut(root, d, failing, y) && CopiedOut(root, next, rest, failing).1);
      assert forall x :: x in names <==> x == y || x in rest;
    }
  }

  predicate CopiesOut(root: Root, d: Dirs, failing: set<Name>, x: Name) {
    Inside(root, x) in d.files ==> x !in failing && (Absolute(x) ==> Stripped(x) !in d.backup)
  }

  /** A successful copy out makes the backup of a relative name equal to the live file,
      and deletes the live file of an absolute one. */
  lemma {:induction false} CopiedOutAt(root: Root, d: Dirs, names: seq<Name>, failing: set<Name>, x: Name)
    requires WellPlaced(root, names) && x in names && CopiedOut(root, d, names, failing).1
    ensures var e := CopiedOut(root, d, names, failing).0;
            && Get(e.files, Live(root, x)) == (if Absolute(x) then None else Get(d.files, Live(root, x)))
            && (!Absolute(x) ==> Get(e.backup, Stripped(x)) == Get(d.files, Live(root, x)))
    decreases |names|
  {
    var y, rest := names[0], names[1..];
    var removed := TargetRemoved(d, y);
    assert names == [y] + rest;
    PathsAgree(root, x);
    NamesAreApart(root, names);
    var next := if Inside(root, y) !in removed.files then removed
                else removed.(backup := removed.backup[Stripped(y) := removed.files[Inside(root, y)]]);
    assert CopiedOut(root, d, names, failing) == CopiedOut(root, next, rest, failing);
    if y == x {
      CopyOutElsewhere(root, next, rest, failing, x);
    } else {
      assert Live(root, y) in Spots(root, y) && Live(root, x) in Spots(root, x);
      CopiedOutAt(root, next, rest, failing, x);
    }
  }

  /** Creating the files, copying out over whatever the backup directory holds, any
      changes to the storage, and a successful copy in bring a listed file back to its
      contents at the time of the backup if and only if its name is relative, or it has
      those contents anyway and a ".bak" file keeps the restore from taking it away. */
  lemma BackupThenRestore(root: Root, files: Files, stale: Files, names: seq<Name>, f1: set<Name>, f2: set<Name>,
                          later: Files, f3: set<Name>, x: Name)
    requires WellPlaced(root, names) && x in names
    ensures var (tree, made) := TreeCreated(root, files, names, f1);
            var (dirs, saved) := CopiedOut(root, Dirs(tree, stale), names, f2);
            var (restored, ok) := CopyFrom(root, later, dirs.backup, names, f3);
            var live := Live(root, x);
            var original := if live in files then files[live] else "";
            made && saved && ok ==>
              (Get(restored, live) == Some(original)
               <==> !Absolute(x) || (Blocked(later, live) && later[live] == original))
  {
    var (tree, made) := TreeCreated(root, files, names, f1);
    var (dirs, saved) := CopiedOut(root, Dirs(tree, stale), names, f2);
    if made && saved {
      TreeAt(root, files, names, f1, x);
      CopiedOutAt(root, Dirs(tree, stale), names, f2, x);
      RestoreIsExact(root, later, dirs.backup, names, f3, x, Live(root, x));
      PathsAgree(root, x);
    }
  }

  lemma DatabasePaths()
    ensures Live("/s", "signon.db") == "/s/signon.db" && Inside("/s", "signon.db") == "/s/signon.db"
    ensures Stripped("signon.db") == "signon.db" && Bak("/s/signon.db") == "/s/signon.db.bak"
  {
  }

  lemma EncryptedFilePaths()
    ensures Live("/s", "/s/signonfs") == "/s/signonfs" && Inside("/s", "/s/signonfs") == "/s/s/signonfs"
    ensures Bak("/s/signonfs") == "/s/signonfs.bak"
  {
    assert "/s/signonfs"[1..] == "s/signonfs" && Stripped("s/signonfs") == "s/signonfs";
  }

  lemma StoragePaths()
    ensures WellPlaced("/s", ["signon.db", "/s/signonfs"])
  {
    DatabasePaths();
    EncryptedFilePaths();
    assert |"/s/signon.db"| == 12 && |"/s/signon.db.bak"| == 16 && |"/s/signonfs"| == 11;
    assert |"/s/s/signonfs"| == 13 && |"/s/signonfs.bak"| == 15;
  }

  /** The list that the daemon backs up when the storage is encrypted: the database by a
      relative name, the encrypted file by its absolute path. The backup succeeds, and
      the encrypted file is gone from the storage without being in the backup. */
  lemma EncryptedFileIsLost(db: string, fs: string)
    ensures var names, files := ["signon.db", "/s/signonfs"], map["/s/signon.db" := db, "/s/signonfs" := fs];
            && WellPlaced("/s", names) && TreeCreated("/s", files, names, {}) == (files, true)
            && CopiedOut("/s", Dirs(files, map[]), names, {})
            == (Dirs(map["/s/signon.db" := db], map["signon.db" := db]), true)
  {
    var names, files := ["signon.db", "/s/signonfs"], map["/s/signon.db" := db, "/s/signonfs" := fs];
    StoragePaths();
    DatabasePaths();
    EncryptedFilePaths();
    assert names[1..] == ["/s/signonfs"] && names[1..][1..] == [];
    var first := Dirs(files, map["signon.db" := db]);
    assert CopiedOut("/s", Dirs(files, map[]), names, {}) == CopiedOut("/s", first, names[1..], {});
    assert TargetRemoved(first, "/s/signonfs").files == map["/s/signon.db" := db];
  }
}
