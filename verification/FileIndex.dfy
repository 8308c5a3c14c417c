/** The JSONL file index: an append/rewrite log of file records read as a map in which the last version wins. */
module FileIndex {
  import opened Common
  import opened Text

  type Record = map<string, string>

  /** JSON encoding of records, and which characters are white space. */
  datatype Codec = Codec(parse: string -> Option<Record>, render: Record -> string, space: char -> bool)

  predicate Blank(c: Codec, line: string): (blank: bool)
    ensures blank <==> forall x :: x in line ==> c.space(x)
  {
    forall i :: 0 <= i < |line| ==> c.space(line[i])
  }

  /** Rendered records are single non-blank lines and parse back. */
  ghost predicate Faithful(c: Codec) {
    forall r :: c.parse(c.render(r)) == Some(r) && '\n' !in c.render(r) && !Blank(c, c.render(r))
  }

  function IdOf(r: Record): string { if "file_id" in r then r["file_id"] else "" }

  /** Exact match of the stored field, as dict.get returns it. */
  predicate HasId(r: Record, id: string) { "file_id" in r && r["file_id"] == id }

  predicate SoftDeleted(r: Record) {
    "lifecycle" in r && (r["lifecycle"] == "soft_deleted" || r["lifecycle"] == "deleted" || r["lifecycle"] == "purged")
  }

  // ---- The file and its records ----

  function ReadLines(file: Option<string>): seq<string> {
    match file case None => [] case Some(text) => Split(text, '\n')
  }

  function WrittenText(lines: seq<string>): string {
    Join(lines, '\n') + (if lines == [] then "" else "\n")
  }

  function ParseLine(c: Codec, line: string): seq<Record> {
    if Blank(c, line) then [] else match c.parse(line) case Some(r) => [r] case None => []
  }

  /** The readable records of a list of lines; blank and malformed lines are skipped. */
  function ParseLines(c: Codec, lines: seq<string>): seq<Record> {
    if lines == [] then [] else ParseLines(c, lines[..|lines| - 1]) + ParseLine(c, lines[|lines| - 1])
  }

  function Records(c: Codec, file: Option<string>): seq<Record> { ParseLines(c, ReadLines(file)) }

  ghost predicate OneLiners(lines: seq<string>) { forall i :: 0 <= i < |lines| ==> '\n' !in lines[i] }

  lemma ParseSnoc(c: Codec, lines: seq<string>, line: string)
    ensures ParseLines(c, lines + [line]) == ParseLines(c, lines) + ParseLine(c, line)
    ensures ParseLine(c, line) == [] ==> ParseLines(c, lines + [line]) == ParseLines(c, lines)
  {
  }

  lemma OneLinersSnoc(lines: seq<string>, line: string)
    requires OneLiners(lines) && '\n' !in line
    ensures OneLiners(lines + [line])
  {
  }

  lemma ParseNothing(c: Codec, lines: seq<string>)
    ensures ParseLines(c, lines[..0]) == [] && ParseLines(c, []) == [] && OneLiners([])
  {
  }

  lemma ReadOneLiners(file: Option<string>)
    ensures OneLiners(ReadLines(file))
  {
  }

  /** Writing lines and reading them back yields the same records: the final newline only adds a blank line. */
  lemma WriteReadBack(c: Codec, lines: seq<string>)
    requires OneLiners(lines)
    ensures Records(c, Some(WrittenText(lines))) == ParseLines(c, lines)
  {
    assert Blank(c, "");
    if lines == [] {
      assert WrittenText(lines) == "" && Split("", '\n') == [""];
      ParseSnoc(c, [], "");
      assert [] + [""] == [""];
    } else {
      JoinAppend(lines, "", '\n');
      assert WrittenText(lines) == Join(lines + [""], '\n');
      SplitJoin(lines + [""], '\n');
      ParseSnoc(c, lines, "");
    }
  }

  // ---- Last version wins ----

  function Without(view: seq<Record>, id: string): seq<Record> {
    if view == [] then [] else
      var rest, r := Without(view[..|view| - 1], id), view[|view| - 1];
      if IdOf(r) == id then rest else rest + [r]
  }

  /** Writing a record: it replaces the version before and moves to the end. Records without id are not kept. */
  function Put(view: seq<Record>, r: Record): seq<Record> {
    if IdOf(r) == "" then view else Without(view, IdOf(r)) + [r]
  }

  /** The index as a map ordered by last write. */
  function Latest(records: seq<Record>): seq<Record> {
    if records == [] then [] else Put(Latest(records[..|records| - 1]), records[|records| - 1])
  }

  predicate LastOfItsId(records: seq<Record>, i: nat)
    requires i < |records|
  {
    IdOf(records[i]) != "" && forall j :: i < j < |records| ==> IdOf(records[j]) != IdOf(records[i])
  }

  /** The records among the first n that are not superseded anywhere in the log. */
  function KeepLast(records: seq<Record>, n: nat): seq<Record>
    requires n <= |records|
  {
    if n == 0 then [] else
      if LastOfItsId(records, n - 1) then KeepLast(records, n - 1) + [records[n - 1]] else KeepLast(records, n - 1)
  }

  lemma LastSnoc(records: seq<Record>, r: Record, i: nat)
    requires i < |records|
    ensures LastOfItsId(records + [r], i) <==> LastOfItsId(records, i) && IdOf(records[i]) != IdOf(r)
  {
    var more := records + [r];
    assert forall j :: 0 <= j < |records| ==> more[j] == records[j];
    assert more[|records|] == r;
  }

  lemma WithoutSnoc(view: seq<Record>, r: Record, id: string)
    ensures Without(view + [r], id) == if IdOf(r) == id then Without(view, id) else Without(view, id) + [r]
  {
  }

  lemma {:induction false} KeepSnoc(records: seq<Record>, r: Record, n: nat)
    requires n <= |records|
    ensures KeepLast(records + [r], n) == if IdOf(r) == "" then KeepLast(records, n) else Without(KeepLast(records, n), IdOf(r))
  {
    hide LastOfItsId, IdOf, Without;
    if n == 0 {
      NothingWithout(IdOf(r));
    } else {
      KeepSnoc(records, r, n - 1);
      LastSnoc(records, r, n - 1);
      WithoutSnoc(KeepLast(records, n - 1), records[n - 1], IdOf(r));
      assert (records + [r])[n - 1] == records[n - 1];
      if LastOfItsId(records, n - 1) { LastHasId(records, n - 1); }
    }
  }

  lemma NothingWithout(id: string)
    ensures Without([], id) == []
  {
  }

  lemma LastHasId(records: seq<Record>, i: nat)
    requires i < |records| && LastOfItsId(records, i)
    ensures IdOf(records[i]) != ""
  {
  }

  /** Keeping the last occurrence of every id, in place, is the map ordered by last write. */
  lemma {:induction false} KeepLastIsLatest(records: seq<Record>)
    ensures KeepLast(records, |records|) == Latest(records)
  {
    if records != [] {
      var front, r := records[..|records| - 1], records[|records| - 1];
      assert records == front + [r];
      KeepLastIsLatest(front);
      KeepSnoc(front, r, |front|);
    }
  }

  // ---- What the rewriting operations do to the map ----

  function Updated(r: Record, id: string, updates: Record): Record { if HasId(r, id) then r + updates else r }

  function UpdateAll(records: seq<Record>, id: string, updates: Record): seq<Record> {
    if records == [] then [] else
      UpdateAll(records[..|records| - 1], id, updates) + [Updated(records[|records| - 1], id, updates)]
  }

  function DropId(records: seq<Record>, id: string): seq<Record> {
    if records == [] then [] else
      var rest, r := DropId(records[..|records| - 1], id), records[|records| - 1];
      if HasId(r, id) then rest else rest + [r]
  }

  function Alive(view: seq<Record>): seq<Record> {
    if view == [] then [] else
      var rest, r := Alive(view[..|view| - 1]), view[|view| - 1];
      if SoftDeleted(r) then rest else rest + [r]
  }

  /** Updates that do not rename the file. */
  predicate KeepsId(id: string, updates: Record) { "file_id" in updates ==> updates["file_id"] == id }

  lemma {:induction false} UpdateWithout(view: seq<Record>, id: string, updates: Record, other: string)
    requires KeepsId(id, updates)
    ensures UpdateAll(Without(view, other), id, updates) == Without(UpdateAll(view, id, updates), other)
  {
    if view != [] {
      var front, r := view[..|view| - 1], view[|view| - 1];
      UpdateWithout(front, id, updates, other);
      assert IdOf(Updated(r, id, updates)) == IdOf(r);
      var kept := Without(front, other);
      assert (kept + [r])[..|kept|] == kept;
      WithoutSnoc(UpdateAll(front, id, updates), Updated(r, id, updates), other);
    }
  }

  /** Updating every version in the log updates exactly one entry of the map, in its place. */
  lemma {:induction false} UpdateLatest(records: seq<Record>, id: string, updates: Record)
    requires KeepsId(id, updates)
    ensures Latest(UpdateAll(records, id, updates)) == UpdateAll(Latest(records), id, updates)
  {
    if records != [] {
      var front, r := records[..|records| - 1], records[|records| - 1];
      UpdateLatest(front, id, updates);
      var all := UpdateAll(front, id, updates);
      assert (all + [Updated(r, id, updates)])[..|all|] == all;
      UpdateWithout(Latest(front), id, updates, IdOf(r));
      var kept := Without(Latest(front), IdOf(r));
      assert (kept + [r])[..|kept|] == kept;
    }
  }

  lemma {:induction false} WithoutCommutes(view: seq<Record>, a: string, b: string)
    ensures Without(Without(view, a), b) == Without(Without(view, b), a)
  {
    if view != [] {
      var front, r := view[..|view| - 1], view[|view| - 1];
      WithoutCommutes(front, a, b);
      WithoutSnoc(Without(front, a), r, b);
      WithoutSnoc(Without(front, b), r, a);
    }
  }

  lemma {:induction false} WithoutTwice(view: seq<Record>, a: string)
    ensures Without(Without(view, a), a) == Without(view, a)
  {
    if view != [] {
      var front, r := view[..|view| - 1], view[|view| - 1];
      WithoutTwice(front, a);
      WithoutSnoc(Without(front, a), r, a);
    }
  }

  /** Dropping every version of a file from the log removes it from the map and touches nothing else. */
  lemma {:induction false} DropLatest(records: seq<Record>, id: string)
    ensures Latest(DropId(records, id)) == Without(Latest(records), id)
  {
    if records != [] {
      var front, r := records[..|records| - 1], records[|records| - 1];
      DropLatest(front, id);
      var kept := DropId(front, id);
      assert (kept + [r])[..|kept|] == kept;
      WithoutSnoc(Without(Latest(front), IdOf(r)), r, id);
      WithoutCommutes(Latest(front), IdOf(r), id);
      WithoutTwice(Latest(front), id);
    }
  }

  // ---- The map itself ----

  function Get(view: seq<Record>, id: string): Option<Record> {
    if view == [] then None
    else if IdOf(view[|view| - 1]) == id then Some(view[|view| - 1])
    else Get(view[..|view| - 1], id)
  }

  /** A map: no two entries with the same id, none without id. */
  ghost predicate IsMap(view: seq<Record>) {
    view == [] || (IsMap(view[..|view| - 1]) && IdOf(view[|view| - 1]) != "" && Get(view[..|view| - 1], IdOf(view[|view| - 1])) == None)
  }

  lemma {:induction false} GetWithout(view: seq<Record>, id: string, other: string)
    ensures Get(Without(view, id), other) == if id == other then None else Get(view, other)
  {
    if view != [] {
      var front, r := view[..|view| - 1], view[|view| - 1];
      GetWithout(front, id, other);
      var kept := Without(front, id);
      assert (kept + [r])[..|kept|] == kept;
    }
  }

  lemma {:induction false} WithoutIsMap(view: seq<Record>, id: string)
    requires IsMap(view)
    ensures IsMap(Without(view, id))
  {
    if view != [] {
      var front, r := view[..|view| - 1], view[|view| - 1];
      WithoutIsMap(front, id);
      GetWithout(front, id, IdOf(r));
      var kept := Without(front, id);
      assert (kept + [r])[..|kept|] == kept;
    }
  }

  /** Writing a record is a map update. */
  lemma PutIsUpdate(view: seq<Record>, r: Record, id: string)
    requires IsMap(view) && IdOf(r) != ""
    ensures IsMap(Put(view, r))
    ensures Get(Put(view, r), id) == if id == IdOf(r) then Some(r) else Get(view, id)
  {
    WithoutIsMap(view, IdOf(r));
    GetWithout(view, IdOf(r), id);
    GetWithout(view, IdOf(r), IdOf(r));
    var kept := Without(view, IdOf(r));
    assert (kept + [r])[..|kept|] == kept;
  }

  lemma {:induction false} LatestIsMap(records: seq<Record>)
    ensures IsMap(Latest(records))
  {
    if records != [] {
      LatestIsMap(records[..|records| - 1]);
      if IdOf(records[|records| - 1]) != "" { PutIsUpdate(Latest(records[..|records| - 1]), records[|records| - 1], ""); }
    }
  }

  lemma {:induction false} WithoutAbsent(view: seq<Record>, id: string)
    requires Get(view, id) == None
    ensures Without(view, id) == view
  {
    if view != [] {
      WithoutAbsent(view[..|view| - 1], id);
      assert view == view[..|view| - 1] + [view[|view| - 1]];
    }
  }

  /** A map written out as a log reads back as itself. */
  lemma {:induction false} LatestOfMap(view: seq<Record>)
    requires IsMap(view)
    ensures Latest(view) == view
  {
    if view != [] {
      var front, r := view[..|view| - 1], view[|view| - 1];
      LatestOfMap(front);
      WithoutAbsent(front, IdOf(r));
      assert Latest(view) == front + [r];
    }
  }

  lemma UpdatedKeepsId(r: Record, id: string, updates: Record)
    requires KeepsId(id, updates)
    ensures IdOf(Updated(r, id, updates)) == IdOf(r)
  {
  }

  lemma GetSnoc(view: seq<Record>, r: Record, id: string)
    ensures Get(view + [r], id) == if IdOf(r) == id then Some(r) else Get(view, id)
    ensures IsMap(view + [r]) <==> IsMap(view) && IdOf(r) != "" && Get(view, IdOf(r)) == None
  {
    assert (view + [r])[..|view|] == view;
  }

  /** An update changes the entry of its own file and no other. */
  lemma {:induction false} GetUpdated(view: seq<Record>, id: string, updates: Record, other: string)
    requires IsMap(view) && KeepsId(id, updates)
    ensures IsMap(UpdateAll(view, id, updates))
    ensures Get(UpdateAll(view, id, updates), other) ==
      match Get(view, other) case Some(r) => Some(Updated(r, id, updates)) case None => None
  {
    hide Updated, IdOf, KeepsId;
    if view != [] {
      var front, r := view[..|view| - 1], view[|view| - 1];
      GetUpdated(front, id, updates, other);
      GetUpdated(front, id, updates, IdOf(r));
      UpdatedKeepsId(r, id, updates);
      GetSnoc(UpdateAll(front, id, updates), Updated(r, id, updates), other);
    }
  }

  lemma {:induction false} GetId(view: seq<Record>, id: string)
    requires IsMap(view)
    ensures Get(view, id).Some? ==> id != "" && IdOf(Get(view, id).value) == id
  {
    if view != [] { GetId(view[..|view| - 1], id); }
  }

  /** An update overwrites the given fields in the entry of its file and changes no other entry. */
  lemma UpdateDecides(view: seq<Record>, id: string, updates: Record, other: string)
    requires IsMap(view) && KeepsId(id, updates)
    ensures Get(UpdateAll(view, id, updates), other) ==
      match Get(view, other) case Some(r) => Some(if other == id then r + updates else r) case None => None
  {
    hide UpdateAll;
    GetUpdated(view, id, updates, other);
    GetId(view, other);
  }

  /** A record with a file id is what its file reads as, right after it was appended. */
  lemma AppendedIsFound(records: seq<Record>, r: Record)
    requires "file_id" in r && r["file_id"] != ""
    ensures Get(Latest(records + [r]), r["file_id"]) == Some(r)
  {
    assert (records + [r])[..|records|] == records;
    LatestIsMap(records);
    PutIsUpdate(Latest(records), r, r["file_id"]);
  }

  /** Compaction keeps exactly the live entries: a soft-deleted file is gone and no older version of it comes back. */
  lemma {:induction false} GetAlive(view: seq<Record>, id: string)
    requires IsMap(view)
    ensures Get(Alive(view), id) == match Get(view, id) case Some(r) => (if SoftDeleted(r) then None else Some(r)) case None => None
  {
    if view != [] {
      var front, r := view[..|view| - 1], view[|view| - 1];
      GetAlive(front, id);
      var kept := Alive(front);
      assert (kept + [r])[..|kept|] == kept;
    }
  }

  lemma {:induction false} GetIs(view: seq<Record>, id: string)
    requires id != ""
    ensures Get(view, id).Some? ==> Get(view, id).value in view && "file_id" in Get(view, id).value && Get(view, id).value["file_id"] == id
    ensures Get(view, id).None? ==> forall r :: r in view && "file_id" in r ==> r["file_id"] != id
  {
    if view != [] {
      var front, r := view[..|view| - 1], view[|view| - 1];
      GetIs(front, id);
      assert view == front + [r];
    }
  }

  /** What is found is stored under that id, and after compaction its lifecycle is none of the deleted ones. */
  lemma FoundIs(view: seq<Record>, id: string)
    requires IsMap(view) && id != ""
    ensures Get(view, id).Some? ==> Get(view, id).value in view && "file_id" in Get(view, id).value && Get(view, id).value["file_id"] == id
    ensures Get(view, id).None? ==> forall r :: r in view && "file_id" in r ==> r["file_id"] != id
    ensures Get(Alive(view), id).Some? <==>
      Get(view, id).Some? && ("lifecycle" in Get(view, id).value ==> Get(view, id).value["lifecycle"] !in {"soft_deleted", "deleted", "purged"})
  {
    hide Get, IsMap, Alive;
    GetAlive(view, id);
    GetIs(view, id);
  }

  lemma {:induction false} AliveIsMap(view: seq<Record>)
    requires IsMap(view)
    ensures IsMap(Alive(view))
  {
    if view != [] {
      var front, r := view[..|view| - 1], view[|view| - 1];
      AliveIsMap(front);
      GetAlive(front, IdOf(r));
      var kept := Alive(front);
      assert (kept + [r])[..|kept|] == kept;
    }
  }

  lemma {:induction false} AliveTwice(view: seq<Record>)
    ensures Alive(Alive(view)) == Alive(view)
  {
    if view != [] {
      var front, r := view[..|view| - 1], view[|view| - 1];
      AliveTwice(front);
      var kept := Alive(front);
      assert (kept + [r])[..|kept|] == kept;
    }
  }

  /** The map after compaction is the live part of the map before, and compacting again changes nothing. */
  lemma CompactedView(records: seq<Record>)
    ensures Latest(Alive(Latest(records))) == Alive(Latest(records))
    ensures Alive(Latest(Alive(Latest(records)))) == Alive(Latest(records))
  {
    LatestIsMap(records);
    AliveIsMap(Latest(records));
    LatestOfMap(Alive(Latest(records)));
    AliveTwice(Latest(records));
  }

  // ---- The index file ----

  function Rendered(c: Codec, records: seq<Record>): seq<string> {
    seq(|records|, i requires 0 <= i < |records| => c.render(records[i]))
  }

  lemma {:induction false} ParseRendered(c: Codec, records: seq<Record>)
    requires Faithful(c)
    ensures ParseLines(c, Rendered(c, records)) == records && OneLiners(Rendered(c, records))
  {
    if records != [] {
      var front, r := records[..|records| - 1], records[|records| - 1];
      ParseRendered(c, front);
      assert Rendered(c, records) == Rendered(c, front) + [c.render(r)];
      hide Blank, Faithful, ParseLines, OneLiners;
      RenderParses(c, r);
      ParseSnoc(c, Rendered(c, front), c.render(r));
      OneLinersSnoc(Rendered(c, front), c.render(r));
      assert records == front + [r];
    }
  }

  function Mentions(records: seq<Record>, id: string): bool {
    records != [] && (Mentions(records[..|records| - 1], id) || HasId(records[|records| - 1], id))
  }

  method ParseAll(c: Codec, lines: seq<string>) returns (records: seq<Record>)
    ensures records == ParseLines(c, lines)
  {
    hide Blank;
    records := [];
    var i := 0;
    assert lines[..0] == [];
    while i < |lines|
      invariant i <= |lines| && records == ParseLines(c, lines[..i])
    {
      assert lines[..i + 1] == lines[..i] + [lines[i]];
      ParseSnoc(c, lines[..i], lines[i]);
      if !Blank(c, lines[i]) {
        var parsed := c.parse(lines[i]);
        if parsed.Some? { records := records + [parsed.value]; }
      }
      i := i + 1;
    }
    assert lines[..|lines|] == lines;
  }

  /** The position of the last record of each id. */
  method LastPositions(records: seq<Record>) returns (seen: map<string, nat>)
    ensures forall j: nat :: j < |records| ==> (j in seen.Values <==> LastOfItsId(records, j))
  {
    hide IdOf, LastOfItsId;
    seen := map[];
    var i := 0;
    while i < |records|
      invariant i <= |records|
      invariant forall id :: id in seen ==> seen[id] < i && IdOf(records[seen[id]]) == id && id != ""
      invariant forall j :: 0 <= j < i && IdOf(records[j]) != "" ==> IdOf(records[j]) in seen && j <= seen[IdOf(records[j])]
    {
      var id := IdOf(records[i]);
      if id != "" { seen := seen[id := i]; }
      i := i + 1;
    }
    LastsKept(records, seen);
  }

  /** Parsing a line and writing its record back changes nothing but blank space. */
  lemma RenderParses(c: Codec, r: Record)
    requires Faithful(c)
    ensures ParseLine(c, c.render(r)) == [r] && '\n' !in c.render(r)
  {
  }

  lemma UpdateSnoc(records: seq<Record>, r: Record, id: string, updates: Record)
    ensures UpdateAll(records + [r], id, updates) == UpdateAll(records, id, updates) + [Updated(r, id, updates)]
    ensures DropId(records + [r], id) == if HasId(r, id) then DropId(records, id) else DropId(records, id) + [r]
    ensures Mentions(records + [r], id) <==> Mentions(records, id) || HasId(r, id)
  {
  }

  /** `updated` holds the lines of `before` with every version of one file updated. */
  ghost predicate UpdatedTo(c: Codec, before: seq<string>, updated: seq<string>, found: bool, id: string, updates: Record) {
    && OneLiners(updated)
    && ParseLines(c, updated) == UpdateAll(ParseLines(c, before), id, updates)
    && (found <==> Mentions(ParseLines(c, before), id))
  }

  lemma BlankLine(c: Codec, before: seq<string>, line: string, updated: seq<string>, found: bool, id: string, updates: Record)
    requires UpdatedTo(c, before, updated, found, id, updates) && Blank(c, line)
    ensures UpdatedTo(c, before + [line], updated, found, id, updates)
  {
    hide Blank, UpdateAll, Mentions, ParseLines;
    ParseSnoc(c, before, line);
  }

  lemma BadLine(c: Codec, before: seq<string>, line: string, updated: seq<string>, found: bool, id: string, updates: Record)
    requires UpdatedTo(c, before, updated, found, id, updates) && c.parse(line) == None && '\n' !in line
    ensures UpdatedTo(c, before + [line], updated + [line], found, id, updates)
  {
    hide Blank, UpdateAll, Mentions, ParseLines, OneLiners;
    ParseSnoc(c, before, line);
    ParseSnoc(c, updated, line);
    OneLinersSnoc(updated, line);
  }

  lemma GoodLine(c: Codec, before: seq<string>, line: string, updated: seq<string>, found: bool, id: string, updates: Record)
    requires UpdatedTo(c, before, updated, found, id, updates) && Faithful(c) && !Blank(c, line) && c.parse(line).Some?
    ensures
      var r := c.parse(line).value;
      UpdatedTo(c, before + [line], updated + [c.render(Updated(r, id, updates))], found || HasId(r, id), id, updates)
  {
    hide Blank, UpdateAll, Mentions, ParseLines, OneLiners, Faithful, HasId;
    var r := c.parse(line).value;
    var fresher := c.render(Updated(r, id, updates));
    ParseSnoc(c, before, line);
    UpdateSnoc(ParseLines(c, before), r, id, updates);
    RenderParses(c, Updated(r, id, updates));
    ParseSnoc(c, updated, fresher);
    OneLinersSnoc(updated, fresher);
  }

  method UpdateLines(c: Codec, lines: seq<string>, id: string, updates: Record) returns (updated: seq<string>, found: bool)
    requires Faithful(c) && OneLiners(lines)
    ensures OneLiners(updated) && ParseLines(c, updated) == UpdateAll(ParseLines(c, lines), id, updates)
    ensures found <==> Mentions(ParseLines(c, lines), id)
  {
    hide Blank, HasId, Faithful, UpdatedTo, OneLiners, UpdateAll, Mentions, ParseLines;
    updated, found := [], false;
    var i := 0;
    NothingUpdated(c, lines, id, updates);
    while i < |lines|
      invariant i <= |lines| && UpdatedTo(c, lines[..i], updated, found, id, updates)
    {
      var line := lines[i];
      assert lines[..i + 1] == lines[..i] + [line];
      LineAt(lines, i);
      if Blank(c, line) {
        BlankLine(c, lines[..i], line, updated, found, id, updates);
      } else {
        var parsed := c.parse(line);
        if parsed.None? {
          BadLine(c, lines[..i], line, updated, found, id, updates);
          updated := updated + [line];
        } else {
          GoodLine(c, lines[..i], line, updated, found, id, updates);
          var rec := parsed.value;
          if HasId(rec, id) {
            rec := rec + updates;
            found := true;
          }
          updated := updated + [c.render(rec)];
        }
      }
      i := i + 1;
    }
    assert lines[..|lines|] == lines;
    AllUpdated(c, lines, updated, found, id, updates);
  }

  lemma NothingUpdated(c: Codec, lines: seq<string>, id: string, updates: Record)
    ensures UpdatedTo(c, lines[..0], [], false, id, updates)
  {
    ParseNothing(c, lines);
    NothingYet(id, updates);
  }

  lemma AllUpdated(c: Codec, lines: seq<string>, updated: seq<string>, found: bool, id: string, updates: Record)
    requires UpdatedTo(c, lines, updated, found, id, updates)
    ensures OneLiners(updated) && ParseLines(c, updated) == UpdateAll(ParseLines(c, lines), id, updates)
    ensures found <==> Mentions(ParseLines(c, lines), id)
  {
  }

  lemma LineAt(lines: seq<string>, i: nat)
    requires OneLiners(lines) && i < |lines|
    ensures '\n' !in lines[i]
  {
  }

  lemma NothingYet(id: string, updates: Record)
    ensures UpdateAll([], id, updates) == [] && DropId([], id) == [] && !Mentions([], id)
  {
  }

  method DropLines(c: Codec, lines: seq<string>, id: string) returns (kept: seq<string>, found: bool)
    requires Faithful(c) && OneLiners(lines)
    ensures OneLiners(kept) && ParseLines(c, kept) == DropId(ParseLines(c, lines), id)
    ensures found <==> Mentions(ParseLines(c, lines), id)
  {
    hide Blank, HasId, Faithful, DropId, Mentions, OneLiners, ParseLines;
    kept, found := [], false;
    var i := 0;
    ParseNothing(c, lines);
    NothingYet(id, map[]);
    while i < |lines|
      invariant i <= |lines| && OneLiners(kept)
      invariant ParseLines(c, kept) == DropId(ParseLines(c, lines[..i]), id)
      invariant found <==> Mentions(ParseLines(c, lines[..i]), id)
    {
      var line := lines[i];
      assert lines[..i + 1] == lines[..i] + [line];
      ParseSnoc(c, lines[..i], line);
      LineAt(lines, i);
      if !Blank(c, line) {
        var parsed := c.parse(line);
        if parsed.None? {
          ParseSnoc(c, kept, line);
          OneLinersSnoc(kept, line);
          kept := kept + [line];
        } else {
          UpdateSnoc(ParseLines(c, lines[..i]), parsed.value, id, map[]);
          if HasId(parsed.value, id) {
            found := true;
          } else {
            ParseSnoc(c, kept, c.render(parsed.value));
            RenderParses(c, parsed.value);
            OneLinersSnoc(kept, c.render(parsed.value));
            kept := kept + [c.render(parsed.value)];
          }
        }
      }
      i := i + 1;
    }
    assert lines[..|lines|] == lines;
  }

  /** The positions of the lines that are not white space. */
  ghost function Written(c: Codec, lines: seq<string>): set<nat> {
    set i: nat | i < |lines| && exists x :: x in lines[i] && !c.space(x)
  }

  method CountLines(c: Codec, lines: seq<string>) returns (count: nat)
    ensures count == |Written(c, lines)|
  {
    count := 0;
    var i := 0;
    ghost var found: set<nat> := {};
    while i < |lines|
      invariant i <= |lines| && count == |found|
      invariant found == set k: nat | k < i && k in Written(c, lines)
    {
      if !Blank(c, lines[i]) {
        count := count + 1;
        found := found + {i};
      }
      i := i + 1;
    }
    assert found == Written(c, lines);
  }

  /** Filters the live entries of a map; it finds no duplicate. */
  method LiveOnly(records: seq<Record>) returns (kept: seq<Record>, duplicates: nat)
    requires IsMap(records)
    ensures kept == Alive(records) && duplicates == 0
  {
    hide IsMap, SoftDeleted, IdOf;
    kept, duplicates := [], 0;
    var ids: set<string> := {};
    var i := 0;
    while i < |records|
      invariant i <= |records| && kept == Alive(records[..i]) && duplicates == 0
      invariant forall id :: id in ids ==> Get(records[..i], id).Some?
    {
      assert records[..i + 1][..i] == records[..i];
      MapNext(records, i);
      var r := records[i];
      if SoftDeleted(r) {
      } else if IdOf(r) in ids {
        duplicates := duplicates + 1;
      } else {
        ids := ids + {IdOf(r)};
        kept := kept + [r];
      }
      i := i + 1;
    }
    assert records[..|records|] == records;
  }

  lemma MapNext(records: seq<Record>, i: nat)
    requires IsMap(records) && i < |records|
    ensures Get(records[..i], IdOf(records[i])) == None
  {
    MapPrefix(records, i + 1);
    assert records[..i + 1][..i] == records[..i];
  }

  class FileIndex {
    const codec: Codec
    var file: Option<string>

    constructor (codec: Codec)
      ensures this.codec == codec && file == None
    {
      this.codec := codec;
      file := None;
    }

    /** The map the file stands for. */
    ghost function View(): seq<Record>
      reads this
    {
      Latest(Records(codec, file))
    }

    method ReadRecords() returns (result: seq<Record>)
      ensures result == View()
    {
      hide ParseLines, ReadLines, LastOfItsId, Latest;
      var records := ParseAll(codec, ReadLines(file));
      var seen := LastPositions(records);
      var keep := seen.Values;
      result := [];
      var i := 0;
      while i < |records|
        invariant i <= |records| && result == KeepLast(records, i)
      {
        if i in keep { result := result + [records[i]]; }
        i := i + 1;
      }
      KeepLastIsLatest(records);
    }

    method Append(record: Record)
      requires Faithful(codec)
      modifies this
      ensures Records(codec, file) == old(Records(codec, file)) + [record]
      ensures View() == Put(old(View()), record)
    {
      var lines := ReadLines(file);
      ReadOneLiners(file);
      var line := codec.render(record);
      ParseSnoc(codec, lines, line);
      WriteReadBack(codec, lines + [line]);
      lines := lines + [line];
      file := Some(WrittenText(lines));
      assert Records(codec, file)[..|Records(codec, file)| - 1] == old(Records(codec, file));
    }

    /** Rewrites every version of one file; without a match the file is not touched. */
    method Update(id: string, updates: Record) returns (found: bool)
      requires Faithful(codec)
      modifies this
      ensures found <==> Mentions(old(Records(codec, file)), id)
      ensures !found ==> file == old(file)
      ensures Records(codec, file) == UpdateAll(old(Records(codec, file)), id, updates)
      ensures KeepsId(id, updates) ==> View() == UpdateAll(old(View()), id, updates)
    {
      ReadOneLiners(file);
      var updated;
      updated, found := UpdateLines(codec, ReadLines(file), id, updates);
      if KeepsId(id, updates) { UpdateLatest(Records(codec, file), id, updates); }
      if !found {
        UpdateNothing(Records(codec, file), id, updates);
        return;
      }
      WriteReadBack(codec, updated);
      file := Some(WrittenText(updated));
    }

    /** Removes every version of one file. */
    method Delete(id: string) returns (found: bool)
      requires Faithful(codec)
      modifies this
      ensures found <==> Mentions(old(Records(codec, file)), id)
      ensures !found ==> file == old(file)
      ensures Records(codec, file) == DropId(old(Records(codec, file)), id)
      ensures View() == Without(old(View()), id)
    {
      ReadOneLiners(file);
      var kept;
      kept, found := DropLines(codec, ReadLines(file), id);
      DropLatest(Records(codec, file), id);
      if found {
        WriteReadBack(codec, kept);
        file := Some(WrittenText(kept));
      } else {
        DropNothing(Records(codec, file), id);
      }
    }

    /** Rewrites the index to its live entries; `duplicates` counts repeated ids, of which there are none left to find. */
    method Compact() returns (before: nat, after: nat, removed: nat, duplicates: nat)
      requires Faithful(codec)
      modifies this
      ensures old(file) == None ==> file == None && after == 0 && removed == 0
      ensures before == |Written(codec, ReadLines(old(file)))|
      ensures View() == Alive(old(View()))
      ensures old(file).Some? ==> Records(codec, file) == Alive(old(View())) && after == |Alive(old(View()))|
      ensures after + removed == |old(View())| && duplicates == 0
    {
      before, after, removed, duplicates := 0, 0, 0, 0;
      if file == None { return; }
      var records := ReadRecords();
      before := CountLines(codec, ReadLines(file));
      LatestIsMap(Records(codec, file));
      var kept;
      kept, duplicates := LiveOnly(records);
      ParseRendered(codec, kept);
      WriteReadBack(codec, Rendered(codec, kept));
      CompactedView(Records(codec, file));
      AliveShorter(records);
      file := Some(WrittenText(Rendered(codec, kept)));
      after, removed := |kept|, |records| - |kept|;
    }
  }

  lemma LastsKept(records: seq<Record>, seen: map<string, nat>)
    requires forall id :: id in seen ==> seen[id] < |records| && IdOf(records[seen[id]]) == id && id != ""
    requires forall j :: 0 <= j < |records| && IdOf(records[j]) != "" ==> IdOf(records[j]) in seen && j <= seen[IdOf(records[j])]
    ensures forall j: nat :: j < |records| ==> (j in seen.Values <==> LastOfItsId(records, j))
  {
  }

  lemma {:induction false} MapPrefix(view: seq<Record>, n: nat)
    requires IsMap(view) && n <= |view|
    ensures IsMap(view[..n])
    decreases |view|
  {
    if n < |view| {
      MapPrefix(view[..|view| - 1], n);
      assert view[..|view| - 1][..n] == view[..n];
    } else {
      assert view[..n] == view;
    }
  }

  lemma {:induction false} AliveShorter(view: seq<Record>)
    ensures |Alive(view)| <= |view|
  {
    if view != [] { AliveShorter(view[..|view| - 1]); }
  }

  lemma {:induction false} UpdateNothing(records: seq<Record>, id: string, updates: Record)
    requires !Mentions(records, id)
    ensures UpdateAll(records, id, updates) == records
  {
    if records != [] {
      UpdateNothing(records[..|records| - 1], id, updates);
      assert records == records[..|records| - 1] + [records[|records| - 1]];
    }
  }

  lemma {:induction false} DropNothing(records: seq<Record>, id: string)
    requires !Mentions(records, id)
    ensures DropId(records, id) == records
  {
    if records != [] {
      DropNothing(records[..|records| - 1], id);
      assert records == records[..|records| - 1] + [records[|records| - 1]];
    }
  }
}
