/**
 The append-only audit log: one chain file, any number of log instances, each
 with its own in-memory view of the file.
 */
module HashChain {
  import opened Prelude
  import Chain

  type Digest = Chain.Digest<string>
  type Link = Chain.Link<string>

  /** A parsed line. `body` stands for every field other than the two digests. */
  datatype Item =
    | NotObject
    | NoHash
    | Record(prev: Digest, digest: Digest, body: string)

  datatype Line = Blank | NotJson | Json(item: Item)

  function LinkOf(item: Item): Link {
    match item
    case Record(prev, digest, body) => Chain.Link(prev, digest, "", body)
    case _ => Chain.Link(Chain.Genesis, Chain.Junk(""), "", "")
  }

  function LinksOf(items: seq<Item>): (links: seq<Link>)
    ensures |links| == |items| && forall i :: 0 <= i < |items| ==> links[i] == LinkOf(items[i])
  {
    seq(|items|, i requires 0 <= i < |items| => LinkOf(items[i]))
  }

  ghost predicate ValidLog(items: seq<Item>) {
    Chain.Valid(LinksOf(items))
  }

  function TipOf(items: seq<Item>): Digest {
    Chain.Tip(LinksOf(items))
  }

  /** The record an append builds on top of `prev`. */
  function Built(prev: Digest, body: string): Item {
    Record(prev, Chain.Seal("", prev, body), body)
  }

  // ---- files ----

  function ItemsOf(lines: seq<Line>): seq<Item> {
    if lines == [] then []
    else
      var n := |lines| - 1;
      if lines[n].Json? then ItemsOf(lines[..n]) + [lines[n].item] else ItemsOf(lines[..n])
  }

  predicate Readable(lines: seq<Line>) {
    forall i :: 0 <= i < |lines| ==> !lines[i].NotJson?
  }

  /** Every line an append has to look at carries a hash. */
  predicate Scannable(lines: seq<Line>) {
    forall i :: 0 <= i < |lines| ==> lines[i].Blank? || (lines[i].Json? && lines[i].item.Record?)
  }

  /** The number, counted from one and counting blanks, of the last line that is not blank. */
  function LastLine(lines: seq<Line>): nat {
    if lines == [] then 0
    else if lines[|lines| - 1].Blank? then LastLine(lines[..|lines| - 1])
    else |lines|
  }

  lemma {:induction false} LastLineCounts(lines: seq<Line>)
    requires Readable(lines)
    ensures |ItemsOf(lines)| <= LastLine(lines) <= |lines|
  {
    if lines != [] {
      LastLineCounts(lines[..|lines| - 1]);
    }
  }

  lemma {:induction false} ValidIsScannable(lines: seq<Line>)
    requires Readable(lines) && ValidLog(ItemsOf(lines))
    ensures Scannable(lines)
  {
    if lines != [] {
      var n := |lines| - 1;
      var init := ItemsOf(lines[..n]);
      if lines[n].Json? {
        assert LinksOf(ItemsOf(lines)) == LinksOf(init) + [LinkOf(lines[n].item)];
        Chain.ValidSnoc(LinksOf(init), LinkOf(lines[n].item));
      }
      ValidIsScannable(lines[..n]);
      forall i | 0 <= i < n ensures lines[i].Blank? || (lines[i].Json? && lines[i].item.Record?) {
        assert lines[i] == lines[..n][i];
      }
    }
  }

  function Extended(lines: seq<Line>, body: string): seq<Line> {
    lines + [Json(Built(TipOf(ItemsOf(lines)), body))]
  }

  /** `after` is `before` and one line more: a record of `body` that follows the last record before it. */
  ghost predicate Carries(after: seq<Line>, before: seq<Line>, body: string) {
    && |after| == |before| + 1 && after[..|before|] == before
    && var line := after[|before|];
       && line.Json? && line.item.Record? && line.item.body == body
       && line.item.prev == TipOf(ItemsOf(before))
       && line.item.digest == Chain.Seal("", TipOf(ItemsOf(before)), body)
  }

  /** The view an instance has after its own append. */
  function ViewAfter(lines: seq<Line>, view: seq<Item>, body: string): seq<Item> {
    if LastLine(lines) > |view| then ItemsOf(Extended(lines, body))
    else view + [Built(TipOf(ItemsOf(lines)), body)]
  }

  lemma ExtendedItems(lines: seq<Line>, body: string)
    ensures ItemsOf(Extended(lines, body)) == ItemsOf(lines) + [Built(TipOf(ItemsOf(lines)), body)]
  {}

  /** An append neither repairs nor damages: the file is valid afterwards exactly when it was before. */
  lemma AppendKeepsValidityExactly(lines: seq<Line>, body: string)
    ensures ValidLog(ItemsOf(Extended(lines, body))) <==> ValidLog(ItemsOf(lines))
  {
    var items := ItemsOf(lines);
    var e := Built(TipOf(items), body);
    ExtendedItems(lines, body);
    assert LinksOf(items + [e]) == LinksOf(items) + [LinkOf(e)];
    Chain.ValidSnoc(LinksOf(items), LinkOf(e));
  }

  /** Two valid logs with the same tip are the same log. */
  lemma EqualTipsEqualLogs(a: seq<Item>, b: seq<Item>)
    requires ValidLog(a) && ValidLog(b) && TipOf(a) == TipOf(b)
    ensures a == b
  {
    Chain.EqualTipsEqualChains(LinksOf(a), LinksOf(b));
    assert |a| == |LinksOf(a)| == |LinksOf(b)| == |b|;
    forall i | 0 <= i < |a| ensures a[i] == b[i] {
      assert Chain.FitsAt(LinksOf(a), i) && LinksOf(a)[i] == LinksOf(b)[i];
    }
  }

  // ---- many writers ----

  type InstanceId = nat

  datatype World = World(lines: seq<Line>, views: map<InstanceId, seq<Item>>)

  datatype Op = Open(id: InstanceId, load: bool) | Append(id: InstanceId, body: string)

  /** One atomic step: opening an instance, or one append under the file lock. */
  function Step(w: World, op: Op): World {
    match op
    case Open(id, load) => w.(views := w.views[id := if load then ItemsOf(w.lines) else []])
    case Append(id, body) =>
      if id in w.views && Scannable(w.lines) then
        World(Extended(w.lines, body), w.views[id := ViewAfter(w.lines, w.views[id], body)])
      else w
  }

  function Run(w: World, ops: seq<Op>): World {
    if ops == [] then w else Step(Run(w, ops[..|ops| - 1]), ops[|ops| - 1])
  }

  ghost predicate Consistent(w: World) {
    && Readable(w.lines)
    && ValidLog(ItemsOf(w.lines))
    && forall id :: id in w.views ==> w.views[id] <= ItemsOf(w.lines)
  }

  lemma OpenConsistent(w: World, id: InstanceId, load: bool)
    requires Consistent(w)
    ensures Consistent(Step(w, Open(id, load))) && w.lines <= Step(w, Open(id, load)).lines
  {}

  /** The view an append leaves is the whole file, whether it was scanned again or was complete before. */
  lemma AppendCatchesUp(lines: seq<Line>, view: seq<Item>, body: string)
    requires Readable(lines) && view <= ItemsOf(lines)
    ensures ViewAfter(lines, view, body) == ItemsOf(Extended(lines, body))
  {
    LastLineCounts(lines);
    ExtendedItems(lines, body);
    if LastLine(lines) <= |view| {
      assert view == ItemsOf(lines);
    }
  }

  lemma AppendConsistent(w: World, id: InstanceId, body: string)
    requires Consistent(w) && id in w.views
    ensures
      var s := Step(w, Append(id, body));
      && Consistent(s) && w.lines <= s.lines
      && ItemsOf(s.lines) == ItemsOf(w.lines) + [Built(TipOf(ItemsOf(w.lines)), body)]
      && s.views[id] == ItemsOf(s.lines)
  {
    var s := Step(w, Append(id, body));
    ValidIsScannable(w.lines);
    AppendKeepsValidityExactly(w.lines, body);
    ExtendedItems(w.lines, body);
    AppendCatchesUp(w.lines, w.views[id], body);
    assert s.lines == Extended(w.lines, body);
    assert s.views == w.views[id := ItemsOf(s.lines)];
  }

  lemma StepConsistent(w: World, op: Op)
    requires Consistent(w)
    ensures Consistent(Step(w, op)) && w.lines <= Step(w, op).lines
  {
    match op
    case Open(id, load) => OpenConsistent(w, id, load);
    case Append(id, body) =>
      if id in w.views {
        AppendConsistent(w, id, body);
      }
  }

  /**
   However many instances append in whatever order, the file stays a valid chain
   that only grows and every view stays a prefix of it.
   */
  lemma {:induction false} ManyWriters(w: World, ops: seq<Op>)
    requires Consistent(w)
    ensures Consistent(Run(w, ops)) && w.lines <= Run(w, ops).lines
  {
    if ops != [] {
      ManyWriters(w, ops[..|ops| - 1]);
      StepConsistent(Run(w, ops[..|ops| - 1]), ops[|ops| - 1]);
    }
  }

  /** Whatever stale view a writer holds, its record lands on the tip of the file and its view catches up. */
  lemma EveryAppendLandsAtTheTip(w: World, ops: seq<Op>, id: InstanceId, body: string)
    requires Consistent(w) && id in Run(w, ops).views
    ensures
      var before, after := Run(w, ops), Run(w, ops + [Append(id, body)]);
      && ItemsOf(after.lines) == ItemsOf(before.lines) + [Built(TipOf(ItemsOf(before.lines)), body)]
      && after.views[id] == ItemsOf(after.lines)
      && Carries(after.lines, before.lines, body)
  {
    assert (ops + [Append(id, body)])[..|ops|] == ops;
    ManyWriters(w, ops);
    AppendConsistent(Run(w, ops), id, body);
  }

  // ---- the log object ----

  datatype Verification = Verification(valid: bool, verifiedRecords: nat, failedRecord: Option<nat>, lastValidHash: Digest)

  datatype Failure = InvalidJson(line: nat) | NotARecord(line: nat) | Broken(v: Verification)

  /** `v` reports the first link of `items` that does not fit, or that there is none. */
  ghost predicate Reports(v: Verification, items: seq<Item>) {
    var links := LinksOf(items);
    && v.verifiedRecords <= |items|
    && (forall i :: 0 <= i < v.verifiedRecords ==> Chain.FitsAt(links, i))
    && v.lastValidHash == Chain.Before(links, v.verifiedRecords)
    && v.valid == (v.verifiedRecords == |items|)
    && v.failedRecord == (if v.valid then None else Some(v.verifiedRecords))
    && (!v.valid ==> !Chain.FitsAt(links, v.verifiedRecords))
  }

  lemma ReportIsExact(v: Verification, items: seq<Item>)
    requires Reports(v, items)
    ensures v.valid <==> ValidLog(items)
  {}

  class ChainFile {
    var lines: seq<Line>

    constructor ()
      ensures lines == []
    {
      lines := [];
    }
  }

  class HashChainLog {
    const file: ChainFile?
    var entries: seq<Item>

    constructor (file: ChainFile?)
      ensures this.file == file && entries == []
    {
      this.file, entries := file, [];
    }

    method Verify() returns (v: Verification)
      ensures Reports(v, entries)
    {
      var previous := Chain.Genesis;
      ghost var links := LinksOf(entries);
      for index := 0 to |entries|
        invariant forall i :: 0 <= i < index ==> Chain.FitsAt(links, i)
        invariant previous == Chain.Before(links, index)
      {
        var entry := entries[index];
        assert Chain.FitsAt(links, index) <==> Chain.LinkFits(LinkOf(entry), previous);
        if !entry.Record? {
          return Verification(false, index, Some(index), previous);
        }
        if entry.prev != previous {
          return Verification(false, index, Some(index), previous);
        }
        if entry.digest != Chain.Seal("", entry.prev, entry.body) {
          return Verification(false, index, Some(index), previous);
        }
        previous := entry.digest;
      }
      return Verification(true, |entries|, None, previous);
    }

    method Load() returns (r: Result<Verification, Failure>)
      modifies this`entries
      ensures file == null ==> r == Ok(Verification(true, 0, None, Chain.Genesis)) && entries == []
      ensures file != null ==> (r.Ok? <==> Readable(file.lines) && ValidLog(ItemsOf(file.lines)))
      ensures file != null && Readable(file.lines) ==> entries == ItemsOf(file.lines)
      ensures r.Ok? ==> Reports(r.value, entries) && r.value.valid
      ensures r.Err? ==> file != null && match r.error
                case InvalidJson(line) =>
                  1 <= line <= |file.lines| && file.lines[line - 1].NotJson? && Readable(file.lines[..line - 1])
                case Broken(v) => Readable(file.lines) && Reports(v, entries) && !v.valid
                case NotARecord(_) => false
    {
      entries := [];
      if file == null {
        return Ok(Verification(true, 0, None, Chain.Genesis));
      }
      for i := 0 to |file.lines|
        invariant entries == ItemsOf(file.lines[..i])
        invariant Readable(file.lines[..i])
      {
        var line := file.lines[i];
        assert file.lines[..i + 1][..i] == file.lines[..i];
        if line.Blank? {
          continue;
        }
        if line.NotJson? {
          return Err(InvalidJson(i + 1));
        }
        entries := entries + [line.item];
      }
      assert file.lines[..|file.lines|] == file.lines;
      var v := Verify();
      ReportIsExact(v, entries);
      if !v.valid {
        return Err(Broken(v));
      }
      return Ok(v);
    }

    /** In file mode the file's own last record, never the view, decides what the new record follows. */
    method Append(body: string) returns (r: Result<Digest, Failure>)
      modifies this`entries, file
      ensures file != null && !Scannable(old(file.lines)) ==>
                && r.Err? && r.error.NotARecord? && file.lines == old(file.lines) && entries == old(entries)
                && 1 <= r.error.line <= |file.lines| && Scannable(file.lines[..r.error.line - 1])
      ensures file != null && Scannable(old(file.lines)) ==>
                && file.lines == Extended(old(file.lines), body)
                && entries == ViewAfter(old(file.lines), old(entries), body)
                && (r.Err? ==> !ValidLog(ItemsOf(old(file.lines))))
                && (r.Ok? ==> r.value == TipOf(ItemsOf(file.lines)))
                && Carries(file.lines, old(file.lines), body)
      ensures file == null ==>
                && (r.Ok? <==> ValidLog(old(entries)))
                && entries == (if r.Ok? then old(entries) + [Built(TipOf(old(entries)), body)] else old(entries))
                && (r.Ok? ==> ValidLog(entries) && r.value == TipOf(entries))
    {
      if file != null {
        var prev: Digest := Chain.Genesis;
        var lastLine := 0;
        for i := 0 to |file.lines|
          invariant Scannable(file.lines[..i])
          invariant prev == TipOf(ItemsOf(file.lines[..i]))
          invariant lastLine == LastLine(file.lines[..i])
          invariant file.lines == old(file.lines) && entries == old(entries)
        {
          var line := file.lines[i];
          assert file.lines[..i + 1][..i] == file.lines[..i];
          if line.Blank? {
            continue;
          }
          if !line.Json? || !line.item.Record? {
            assert !Scannable(file.lines);
            return Err(NotARecord(i + 1));
          }
          prev := line.item.digest;
          lastLine := i + 1;
        }
        assert file.lines[..|file.lines|] == file.lines;
        var entry := Built(prev, body);
        file.lines := file.lines + [Json(entry)];
        ExtendedItems(old(file.lines), body);
        if lastLine > |entries| {
          AppendKeepsValidityExactly(old(file.lines), body);
          var loaded := Load();
          if loaded.Err? {
            return Err(loaded.error);
          }
        } else {
          entries := entries + [entry];
        }
        return Ok(entry.digest);
      }
      var v := Verify();
      ReportIsExact(v, entries);
      if !v.valid {
        return Err(Broken(v));
      }
      var entry := Built(v.lastValidHash, body);
      assert LinksOf(entries + [entry]) == LinksOf(entries) + [LinkOf(entry)];
      Chain.ValidSnoc(LinksOf(entries), LinkOf(entry));
      entries := entries + [entry];
      return Ok(entry.digest);
    }
  }
}
