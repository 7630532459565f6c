/**
 * transfer_files.py: the session files dropped in the transfer folder are
 * grouped by their name without extension, and every group whose name
 * carries `_<6-digit animal>_<8-digit date>_` is moved into
 * `<animal>/Behavior/<date>` of the data folder; other groups stay put.
 */
module Transfer {
  import opened Wrappers
  import opened Text
  import Names

  /** `filename.endswith(('.csv', '.json'))`. */
  predicate Transferable(f: string) { EndsWith(f, ".csv") || EndsWith(f, ".json") }

  /** `os.path.splitext(filename)[0]`. */
  function Base(f: string): string { SplitExt(f).0 }

  /** `file_groups`: the base names in first-appearance order, and each one's files. */
  datatype Grouping = Grouping(keys: seq<string>, members: map<string, seq<string>>)

  predicate DistinctKeys(keys: seq<string>)
  {
    forall i, j :: 0 <= i < j < |keys| ==> keys[i] != keys[j]
  }

  /** `file_groups[base_name].append(filename)` for one entry of the listing. */
  function AddFile(g: Grouping, f: string): Grouping
  {
    if !Transferable(f) then g
    else
      var b := Base(f);
      if b in g.members then Grouping(g.keys, g.members[b := g.members[b] + [f]])
      else Grouping(g.keys + [b], g.members[b := [f]])
  }

  /** The grouping after the whole listing. */
  function Grouped(listing: seq<string>): (g: Grouping)
    ensures DistinctKeys(g.keys)
    ensures forall b :: b in g.keys <==> b in g.members
    decreases |listing|
  {
    if listing == [] then Grouping([], map[])
    else
      var init := Grouped(listing[..|listing| - 1]);
      var g := AddFile(init, listing[|listing| - 1]);
      assert forall b :: b in g.keys <==> b in init.keys || (b == Base(listing[|listing| - 1]) && Transferable(listing[|listing| - 1]));
      g
  }

  /** The files of the listing a group of base name `b` should hold, in listing order. */
  function FilesWithBase(listing: seq<string>, b: string): (fs: seq<string>)
    ensures forall f :: f in fs <==> f in listing && Transferable(f) && Base(f) == b
    decreases |listing|
  {
    if listing == [] then []
    else
      var f := listing[|listing| - 1];
      assert forall x :: x in listing <==> x in listing[..|listing| - 1] || x == f;
      FilesWithBase(listing[..|listing| - 1], b) + (if Transferable(f) && Base(f) == b then [f] else [])
  }

  /**
   * Every group holds exactly the listed `.csv` and `.json` files of its
   * base name, in listing order; a base name has a group exactly when some
   * such file is listed.
   */
  lemma {:induction false} GroupedMembers(listing: seq<string>, b: string)
    ensures b in Grouped(listing).members <==> FilesWithBase(listing, b) != []
    ensures b in Grouped(listing).members ==> Grouped(listing).members[b] == FilesWithBase(listing, b)
    decreases |listing|
  {
    if listing != [] {
      GroupedMembers(listing[..|listing| - 1], b);
    }
  }

  /** Where a group goes: `<animal>/Behavior/<date>`, from the leftmost match in its base name. */
  datatype Move = Move(file: string, animal: string, date: string)

  function GroupMoves(files: seq<string>, animal: string, date: string): (ms: seq<Move>)
    ensures |ms| == |files| && forall i :: 0 <= i < |files| ==> ms[i] == Move(files[i], animal, date)
  {
    seq(|files|, i requires 0 <= i < |files| => Move(files[i], animal, date))
  }

  /** The moves of the groups in `keys`, in order; a group without a match is skipped. */
  function MovesFor(keys: seq<string>, members: map<string, seq<string>>): seq<Move>
    requires forall b :: b in keys ==> b in members
    decreases |keys|
  {
    if keys == [] then []
    else
      var b := keys[|keys| - 1];
      var rest := MovesFor(keys[..|keys| - 1], members);
      match Names.RouteOf(b)
      case None => rest
      case Some((animal, date)) => rest + GroupMoves(members[b], animal, date)
  }

  lemma {:induction false} MovesForMembers(keys: seq<string>, members: map<string, seq<string>>, m: Move)
    requires forall b :: b in keys ==> b in members
    ensures m in MovesFor(keys, members) <==>
              exists b :: b in keys && Names.RouteOf(b) == Some((m.animal, m.date)) && m.file in members[b]
    decreases |keys|
  {
    if keys != [] {
      var init := keys[..|keys| - 1];
      var b := keys[|keys| - 1];
      MovesForMembers(init, members, m);
      assert forall x :: x in keys <==> x in init || x == b;
      var rest := MovesFor(init, members);
      match Names.RouteOf(b)
      case None =>
        assert MovesFor(keys, members) == rest;
      case Some((animal, date)) =>
        var gm := GroupMoves(members[b], animal, date);
        assert MovesFor(keys, members) == rest + gm;
        GroupMovesMembers(members[b], animal, date, m);
    }
  }

  lemma GroupMovesMembers(files: seq<string>, animal: string, date: string, m: Move)
    ensures m in GroupMoves(files, animal, date) <==> m.file in files && m.animal == animal && m.date == date
  {
    var gm := GroupMoves(files, animal, date);
    if m in gm {
      var i :| 0 <= i < |gm| && gm[i] == m;
      assert files[i] == m.file;
    }
    if m.file in files && m.animal == animal && m.date == date {
      var i :| 0 <= i < |files| && files[i] == m.file;
      assert gm[i] == m;
    }
  }

  /**
   * Exactly the listed `.csv` and `.json` files whose base name carries an
   * animal id and a date are moved, each into the folder its own base name
   * names; so files sharing a base name go to the same folder, and a file
   * whose base name has no match stays where it is.
   */
  lemma Transferred(listing: seq<string>, m: Move)
    ensures var g := Grouped(listing);
            m in MovesFor(g.keys, g.members) <==>
              m.file in listing && Transferable(m.file) && Names.RouteOf(Base(m.file)) == Some((m.animal, m.date))
  {
    var g := Grouped(listing);
    MovesForMembers(g.keys, g.members, m);
    if m in MovesFor(g.keys, g.members) {
      var b :| b in g.keys && Names.RouteOf(b) == Some((m.animal, m.date)) && m.file in g.members[b];
      GroupedMembers(listing, b);
    }
    if m.file in listing && Transferable(m.file) && Names.RouteOf(Base(m.file)) == Some((m.animal, m.date)) {
      var b := Base(m.file);
      GroupedMembers(listing, b);
      assert m.file in FilesWithBase(listing, b);
    }
  }

  /** Two moved files with the same base name go into the same folder. */
  lemma SameBaseSameFolder(listing: seq<string>, m1: Move, m2: Move)
    requires var g := Grouped(listing);
             m1 in MovesFor(g.keys, g.members) && m2 in MovesFor(g.keys, g.members)
    requires Base(m1.file) == Base(m2.file)
    ensures m1.animal == m2.animal && m1.date == m2.date
  {
    Transferred(listing, m1);
    Transferred(listing, m2);
  }

  /**
   * The `.csv` log and the `.json` settings of one recording,
   * `<prefix>_<animal>_<date>_<rest>`, both go to `<animal>/Behavior/<date>`.
   */
  lemma RecordingMovedTogether(listing: seq<string>, pre: string, animal: string, date: string, rest: string)
    requires All(pre, Names.NotUnderscore)
    requires |animal| == 6 && AllDigits(animal) && |date| == 8 && AllDigits(date)
    requires var stem := pre + "_" + animal + "_" + date + "_" + rest;
             stem + ".csv" in listing && stem + ".json" in listing
    ensures var stem := pre + "_" + animal + "_" + date + "_" + rest;
            var g := Grouped(listing);
            Move(stem + ".csv", animal, date) in MovesFor(g.keys, g.members)
            && Move(stem + ".json", animal, date) in MovesFor(g.keys, g.members)
  {
    var stem := pre + "_" + animal + "_" + date + "_" + rest;
    assert stem[|pre|] != '.';
    Names.RouteOfFinds(pre, animal, date, rest);
    SplitExtOfKnownExtension(stem, ".csv");
    SplitExtOfKnownExtension(stem, ".json");
    assert EndsWith(stem + ".csv", ".csv");
    assert EndsWith(stem + ".json", ".json");
    Transferred(listing, Move(stem + ".csv", animal, date));
    Transferred(listing, Move(stem + ".json", animal, date));
  }

  // ---- the two loops ----

  /** The first loop: the `defaultdict` filled entry by entry. */
  method GroupByBase(listing: seq<string>) returns (keys: seq<string>, members: map<string, seq<string>>)
    ensures Grouping(keys, members) == Grouped(listing)
  {
    keys := [];
    members := map[];
    for i := 0 to |listing|
      invariant Grouping(keys, members) == Grouped(listing[..i])
    {
      assert listing[..i + 1][..i] == listing[..i];
      var f := listing[i];
      if EndsWith(f, ".csv") || EndsWith(f, ".json") {
        var b := SplitExt(f).0;
        if b in members {
          members := members[b := members[b] + [f]];
        } else {
          keys := keys + [b];
          members := members[b := [f]];
        }
      }
    }
    assert listing[..|listing|] == listing;
  }

  /** The second loop: every group with a match, file by file. */
  method MoveGroups(keys: seq<string>, members: map<string, seq<string>>) returns (moves: seq<Move>)
    requires forall b :: b in keys ==> b in members
    ensures moves == MovesFor(keys, members)
  {
    moves := [];
    for i := 0 to |keys|
      invariant moves == MovesFor(keys[..i], members)
    {
      assert keys[..i + 1][..i] == keys[..i];
      var b := keys[i];
      var route := Names.RouteOf(b);
      if route.Some? {
        var (animal, date) := route.value;
        var files := members[b];
        for j := 0 to |files|
          invariant moves == MovesFor(keys[..i], members) + GroupMoves(files[..j], animal, date)
        {
          moves := moves + [Move(files[j], animal, date)];
        }
        assert files[..|files|] == files;
      }
    }
    assert keys[..|keys|] == keys;
  }

  /** The script: group the transfer folder's listing, then move the matched groups. */
  method TransferFiles(listing: seq<string>) returns (moves: seq<Move>)
    ensures moves == MovesFor(Grouped(listing).keys, Grouped(listing).members)
  {
    var keys, members := GroupByBase(listing);
    moves := MoveGroups(keys, members);
  }
}
