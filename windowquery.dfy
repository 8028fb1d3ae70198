/** The daily summaries (`dpmbt3today` and its copies for the other five classes): the
    histories of the class's vehicles are scanned for lines of the requested day, and
    each such vehicle gets a row with its first and last time of the day and the line
    of its first entry. */
module WindowQuery {
  import opened Wrappers
  import opened PyStr
  import opened Classifier
  import opened LogStore
  import Paging

  /** The tuple `(ts, line_no, trip_id)` stored for a line of the day. */
  datatype Entry = Entry(ts: string, lineNo: string, tripId: string)

  /** The three `split` expressions applied to a history line; `None` where one of them
      raises `IndexError` (the line has no "ID " or no "Vonal "), which aborts the command. */
  function ParseEntry(l: string): (r: Option<Entry>)
    ensures r.Some? <==> Contains(l, "ID ") && Contains(l, "Vonal ")
    ensures r.Some? ==> r.value.ts == TsField(l) && NoSpace(r.value.tripId) && NoSpace(r.value.lineNo)
  {
    match WordAfter(l, "ID ")
    case None => None
    case Some(tripId) =>
      match WordAfter(l, "Vonal ")
      case None => None
      case Some(lineNo) => Some(Entry(TsField(l), lineNo, tripId))
  }

  const VehicleDir: string := "logs/veh"

  /** The label a directory entry is read under: only names ending in ".txt" are read,
      the label is the name with ".txt" removed, and it must pass the class test. */
  function ListedVehicle(fname: string, cls: VehicleClass): (r: Option<string>)
    ensures r.Some? ==> EndsWith(fname, ".txt") && cls.Matches(r.value)
    ensures r.Some? <==> EndsWith(fname, ".txt") && cls.Matches(Replace(fname, ".txt", ""))
    ensures r.Some? ==> r.value == Replace(fname, ".txt", "")
  {
    if !EndsWith(fname, ".txt") then None
    else
      var reg := Replace(fname, ".txt", "");
      if cls.Matches(reg) then Some(reg) else None
  }

  /** The `t3s` dictionary: label to the entries stored for it, in reading order. */
  type Table = map<string, seq<Entry>>

  function EntriesOf(t: Table, reg: string): seq<Entry>
  {
    if reg in t then t[reg] else []
  }

  /** Reading one history file, line by line as `for line in f` yields them (each with
      its line break), adding an entry under `reg` for each line that starts with `day`. */
  function AddLines(t: Table, reg: string, day: string, lines: seq<string>): Option<Table>
    decreases |lines|
  {
    if |lines| == 0 then Some(t)
    else
      var l := lines[0] + "\n";
      if !StartsWith(l, day) then AddLines(t, reg, day, lines[1..])
      else
        match ParseEntry(l)
        case None => None
        case Some(e) => AddLines(t[reg := EntriesOf(t, reg) + [e]], reg, day, lines[1..])
  }

  /** Handling one directory entry: skipped, or its file read under its label. */
  function AddFile(t: Table, files: Files, fname: string, day: string, cls: VehicleClass): Option<Table>
  {
    match ListedVehicle(fname, cls)
    case None => Some(t)
    case Some(reg) => AddLines(t, reg, day, Lines(files, VehicleDir + "/" + fname))
  }

  /** Reading the vehicle directory in listing order. */
  function AddFiles(t: Table, files: Files, listing: seq<string>, day: string, cls: VehicleClass): Option<Table>
    decreases |listing|
  {
    if |listing| == 0 then Some(t)
    else
      match AddFile(t, files, listing[0], day, cls)
      case None => None
      case Some(t2) => AddFiles(t2, files, listing[1..], day, cls)
  }

  /** The dictionary the scan builds, or `None` when it raises. */
  function Collected(files: Files, listing: seq<string>, day: string, cls: VehicleClass): Option<Table>
  {
    AddFiles(map[], files, listing, day, cls)
  }

  /** The outer loop over the directory listing that builds the dictionary. */
  method Collect(files: Files, listing: seq<string>, day: string, cls: VehicleClass) returns (r: Option<Table>)
    ensures r == Collected(files, listing, day, cls)
  {
    var t: Table := map[];
    var i := 0;
    while i < |listing|
      invariant 0 <= i <= |listing|
      invariant AddFiles(t, files, listing[i..], day, cls) == Collected(files, listing, day, cls)
    {
      var fname := listing[i];
      assert listing[i..][1..] == listing[i + 1..];
      if !EndsWith(fname, ".txt") {
        i := i + 1;
        continue;
      }
      var reg := Replace(fname, ".txt", "");
      if !cls.Matches(reg) {
        i := i + 1;
        continue;
      }
      var read := ReadHistory(t, reg, day, Lines(files, VehicleDir + "/" + fname));
      assert ListedVehicle(fname, cls) == Some(reg);
      assert AddFile(t, files, fname, day, cls) == read;
      if read.None? {
        return None;
      }
      t := read.value;
      i := i + 1;
    }
    assert listing[i..] == [];
    r := Some(t);
  }

  /** The inner loop over one history file's lines. */
  method ReadHistory(t0: Table, reg: string, day: string, lines: seq<string>) returns (r: Option<Table>)
    ensures r == AddLines(t0, reg, day, lines)
  {
    var t := t0;
    var j := 0;
    while j < |lines|
      invariant 0 <= j <= |lines|
      invariant AddLines(t0, reg, day, lines) == AddLines(t, reg, day, lines[j..])
    {
      var l := lines[j] + "\n";
      assert lines[j..][1..] == lines[j + 1..];
      if StartsWith(l, day) {
        var ts := Split(l, " - ")[0];
        if !Contains(l, "ID ") {
          return None;
        }
        var tripId := Split(Split(l, "ID ")[1], " ")[0];
        if !Contains(l, "Vonal ") {
          return None;
        }
        var lineNo := Split(Split(l, "Vonal ")[1], " ")[0];
        t := t[reg := (if reg in t then t[reg] else []) + [Entry(ts, lineNo, tripId)]];
      }
      j := j + 1;
    }
    assert lines[j..] == [];
    r := Some(t);
  }

  /** The entries one history file contributes, independently of the dictionary: one per
      line that starts with `day`, or `None` when one of those lines does not parse. */
  function DayEntries(day: string, lines: seq<string>): Option<seq<Entry>>
    decreases |lines|
  {
    if |lines| == 0 then Some([])
    else
      var l := lines[0] + "\n";
      var rest := DayEntries(day, lines[1..]);
      if !StartsWith(l, day) then rest
      else
        match ParseEntry(l)
        case None => None
        case Some(e) => if rest.None? then None else Some([e] + rest.value)
  }

  /** The dictionary with `es` appended under `reg`; the key is created only when there
      is something to add (`setdefault` runs only on a matching line). */
  function Added(t: Table, reg: string, es: seq<Entry>): Table
  {
    if es == [] then t else t[reg := EntriesOf(t, reg) + es]
  }

  /** Adding one entry and then more is adding them all at once. */
  lemma AddedCons(t: Table, reg: string, e: Entry, es: seq<Entry>)
    ensures Added(t[reg := EntriesOf(t, reg) + [e]], reg, es) == Added(t, reg, [e] + es)
  {
    var t1 := t[reg := EntriesOf(t, reg) + [e]];
    if es == [] {
      assert [e] + es == [e];
    } else {
      assert EntriesOf(t1, reg) + es == EntriesOf(t, reg) + ([e] + es);
    }
  }

  /** Reading a file adds exactly its day entries under its label. */
  lemma {:induction false} AddLinesIsDayEntries(t: Table, reg: string, day: string, lines: seq<string>)
    ensures AddLines(t, reg, day, lines) ==
      if DayEntries(day, lines).None? then None else Some(Added(t, reg, DayEntries(day, lines).value))
    decreases |lines|
  {
    if |lines| > 0 {
      var l := lines[0] + "\n";
      if !StartsWith(l, day) {
        AddLinesIsDayEntries(t, reg, day, lines[1..]);
      } else if ParseEntry(l).Some? {
        var e := ParseEntry(l).value;
        AddLinesIsDayEntries(t[reg := EntriesOf(t, reg) + [e]], reg, day, lines[1..]);
        if DayEntries(day, lines[1..]).Some? {
          AddedCons(t, reg, e, DayEntries(day, lines[1..]).value);
        }
      }
    }
  }

  /** A line that starts with a day holding no space has a timestamp field that starts
      with that day. */
  lemma TsFieldOfDay(l: string, day: string)
    requires StartsWith(l, day) && NoSpace(day)
    ensures StartsWith(TsField(l), day)
  {
    forall j: nat | j < |day|
      ensures !OccursAt(l, " - ", j)
    {
      assert l[j] == day[j];
      NoOccurrenceAt(l, " - ", j, 0);
    }
    var k := match Find(l, " - ") case None => |l| case Some(k) => k;
    assert TsField(l) == l[..k];
  }

  /** Every entry of a file's day entries carries a timestamp of that day. */
  lemma {:induction false} DayEntriesOfDay(day: string, lines: seq<string>)
    requires NoSpace(day) && DayEntries(day, lines).Some?
    ensures forall e :: e in DayEntries(day, lines).value ==> StartsWith(e.ts, day)
    decreases |lines|
  {
    if |lines| > 0 {
      var l := lines[0] + "\n";
      DayEntriesOfDay(day, lines[1..]);
      if StartsWith(l, day) {
        TsFieldOfDay(l, day);
      }
    }
  }

  /** A file with a line of the day, all of whose day lines parse, contributes an entry. */
  lemma {:induction false} DayEntriesNonEmpty(day: string, lines: seq<string>, k: nat)
    requires k < |lines| && StartsWith(lines[k] + "\n", day) && DayEntries(day, lines).Some?
    ensures DayEntries(day, lines).value != []
    decreases |lines|
  {
    if k > 0 && !StartsWith(lines[0] + "\n", day) {
      assert lines[1..][k - 1] == lines[k];
      DayEntriesNonEmpty(day, lines[1..], k - 1);
    }
  }

  /** The dictionary's invariant: every label passes the class test and has at least one
      entry, and, for a day written without spaces, every entry is of the day. */
  predicate WellFormed(t: Table, day: string, cls: VehicleClass)
  {
    forall reg :: reg in t ==>
      cls.Matches(reg) && |t[reg]| > 0 &&
      (NoSpace(day) ==> forall e :: e in t[reg] ==> StartsWith(e.ts, day))
  }

  /** The scan keeps the invariant, and never drops a label it has added. */
  lemma {:induction false} AddFilesWellFormed(t: Table, files: Files, listing: seq<string>, day: string, cls: VehicleClass)
    requires WellFormed(t, day, cls)
    requires AddFiles(t, files, listing, day, cls).Some?
    ensures WellFormed(AddFiles(t, files, listing, day, cls).value, day, cls)
    ensures t.Keys <= AddFiles(t, files, listing, day, cls).value.Keys
    decreases |listing|
  {
    if |listing| > 0 {
      var t2 := AddFile(t, files, listing[0], day, cls).value;
      if ListedVehicle(listing[0], cls).Some? {
        var reg := ListedVehicle(listing[0], cls).value;
        var lines := Lines(files, VehicleDir + "/" + listing[0]);
        AddLinesIsDayEntries(t, reg, day, lines);
        if NoSpace(day) {
          DayEntriesOfDay(day, lines);
        }
      }
      AddFilesWellFormed(t2, files, listing[1..], day, cls);
    }
  }

  /** What the scan reports is sound: only vehicles of the class, each with at least one
      entry, all entries of the requested day. */
  lemma CollectedSound(files: Files, listing: seq<string>, day: string, cls: VehicleClass)
    requires Collected(files, listing, day, cls).Some?
    ensures WellFormed(Collected(files, listing, day, cls).value, day, cls)
  {
    AddFilesWellFormed(map[], files, listing, day, cls);
  }

  /** ... and complete: a listed vehicle of the class with a line of the day is reported. */
  lemma CollectedComplete(t: Table, files: Files, listing: seq<string>, day: string, cls: VehicleClass,
                          i: nat, reg: string, k: nat)
    requires i < |listing| && HasDayLine(files, listing[i], day, cls, reg, k)
    requires AddFiles(t, files, listing, day, cls).Some?
    ensures reg in AddFiles(t, files, listing, day, cls).value
  {
    AddFilesSplit(t, files, listing, day, cls, i);
    var u := AddFiles(t, files, listing[..i], day, cls).value;
    assert listing[i..][0] == listing[i];
    ReportedAtHead(u, files, listing[i..], day, cls, reg, k);
  }

  /** Scanning a listing is scanning a prefix of it and then the rest from where the
      prefix left off. */
  lemma {:induction false} AddFilesSplit(t: Table, files: Files, listing: seq<string>, day: string, cls: VehicleClass, i: nat)
    requires i <= |listing|
    ensures AddFiles(t, files, listing, day, cls) ==
      match AddFiles(t, files, listing[..i], day, cls)
      case None => None
      case Some(u) => AddFiles(u, files, listing[i..], day, cls)
    decreases i
  {
    if i == 0 {
      assert listing[i..] == listing;
    } else {
      var head := listing[..i];
      assert head[0] == listing[0] && head[1..] == listing[1..][..i - 1];
      assert listing[1..][i - 1..] == listing[i..];
      match AddFile(t, files, listing[0], day, cls)
      case None =>
      case Some(t2) =>
        AddFilesSplit(t2, files, listing[1..], day, cls, i - 1);
    }
  }

  /** The first entry of the listing, when it has a line of the day, is reported. */
  lemma ReportedAtHead(t: Table, files: Files, listing: seq<string>, day: string, cls: VehicleClass, reg: string, k: nat)
    requires |listing| > 0 && HasDayLine(files, listing[0], day, cls, reg, k)
    requires AddFiles(t, files, listing, day, cls).Some?
    ensures reg in AddFiles(t, files, listing, day, cls).value
  {
    var t2 := AddFile(t, files, listing[0], day, cls).value;
    FileOfDayReported(t, files, listing[0], day, cls, reg, k);
    AddFilesKeysGrow(t2, files, listing[1..], day, cls);
  }

  /** Directory entry `fname` is read under label `reg`, and line `k` of its file is of
      the day. */
  predicate HasDayLine(files: Files, fname: string, day: string, cls: VehicleClass, reg: string, k: nat)
  {
    ListedVehicle(fname, cls) == Some(reg) && k < |Lines(files, VehicleDir + "/" + fname)| &&
    StartsWith(Lines(files, VehicleDir + "/" + fname)[k] + "\n", day)
  }

  /** Reading a listed file with a line of the day adds its label. */
  lemma FileOfDayReported(t: Table, files: Files, fname: string, day: string, cls: VehicleClass, reg: string, k: nat)
    requires HasDayLine(files, fname, day, cls, reg, k)
    requires AddFile(t, files, fname, day, cls).Some?
    ensures reg in AddFile(t, files, fname, day, cls).value
  {
    var lines := Lines(files, VehicleDir + "/" + fname);
    AddLinesIsDayEntries(t, reg, day, lines);
    DayEntriesNonEmpty(day, lines, k);
  }

  /** Labels are never removed once added. */
  lemma {:induction false} AddFilesKeysGrow(t: Table, files: Files, listing: seq<string>, day: string, cls: VehicleClass)
    requires AddFiles(t, files, listing, day, cls).Some?
    ensures t.Keys <= AddFiles(t, files, listing, day, cls).value.Keys
    decreases |listing|
  {
    if |listing| > 0 {
      var t2 := AddFile(t, files, listing[0], day, cls).value;
      if ListedVehicle(listing[0], cls).Some? {
        var reg := ListedVehicle(listing[0], cls).value;
        AddLinesIsDayEntries(t, reg, day, Lines(files, VehicleDir + "/" + listing[0]));
      }
      AddFilesKeysGrow(t2, files, listing[1..], day, cls);
    }
  }

  /** A vehicle's history file is found under its own label. */
  lemma HistoryFileListed(v: string, cls: VehicleClass)
    requires forall i :: 0 <= i < |v| ==> v[i] != '.'
    ensures VehicleDir + "/" + (v + ".txt") == VehiclePath(v)
    ensures ListedVehicle(v + ".txt", cls) == if cls.Matches(v) then Some(v) else None
  {
    ReplaceSuffix(v, ".txt");
  }

  /** `replace` removes every ".txt", so a history file whose name carries the suffix
      twice is read under the same label as the one that carries it once. */
  lemma DoubledSuffixFolds(v: string, cls: VehicleClass)
    requires forall i :: 0 <= i < |v| ==> v[i] != '.'
    ensures ListedVehicle(v + ".txt" + ".txt", cls) == ListedVehicle(v + ".txt", cls)
  {
    HistoryFileListed(v, cls);
    ReplaceDoubledSuffix(v, ".txt");
    assert EndsWith(v + ".txt" + ".txt", ".txt");
  }

  /** A line the log store wrote is read back as the entry it was written from, and it
      belongs to a day exactly when its timestamp starts with that day. */
  lemma WrittenLineParses(e: Event, day: string)
    requires Loggable(e) && |day| <= |e.at.ts|
    ensures ParseEntry(EventLine(e) + "\n") == Some(Entry(e.at.ts, e.obs.line, e.obs.tripId))
    ensures StartsWith(EventLine(e) + "\n", day) <==> StartsWith(e.at.ts, day)
  {
    EventLineFields(e, "\n");
    var l := EventLine(e) + "\n";
    assert l[..|e.at.ts|] == e.at.ts;
    assert l[..|day|] == e.at.ts[..|day|];
  }

  /** Python's `min(es, key=lambda x: x[0])`, scanning from `i` with the best index so far:
      the first entry whose timestamp is least. */
  function MinFrom(es: seq<Entry>, i: nat, best: nat): (r: nat)
    requires best < i <= |es|
    requires forall j :: 0 <= j < i ==> StrLe(es[best].ts, es[j].ts)
    requires forall j :: 0 <= j < best ==> StrLt(es[best].ts, es[j].ts)
    ensures r < |es|
    ensures forall j :: 0 <= j < |es| ==> StrLe(es[r].ts, es[j].ts)
    ensures forall j :: 0 <= j < r ==> StrLt(es[r].ts, es[j].ts)
    decreases |es| - i
  {
    if i == |es| then best
    else if StrLt(es[i].ts, es[best].ts) then
      BelowAll(es, i, best);
      MinFrom(es, i + 1, i)
    else
      StrLtTotal(es[i].ts, es[best].ts);
      MinFrom(es, i + 1, best)
  }

  /** Python's `max(es, key=lambda x: x[0])`: the first entry whose timestamp is greatest. */
  function MaxFrom(es: seq<Entry>, i: nat, best: nat): (r: nat)
    requires best < i <= |es|
    requires forall j :: 0 <= j < i ==> StrLe(es[j].ts, es[best].ts)
    requires forall j :: 0 <= j < best ==> StrLt(es[j].ts, es[best].ts)
    ensures r < |es|
    ensures forall j :: 0 <= j < |es| ==> StrLe(es[j].ts, es[r].ts)
    ensures forall j :: 0 <= j < r ==> StrLt(es[j].ts, es[r].ts)
    decreases |es| - i
  {
    if i == |es| then best
    else if StrLt(es[best].ts, es[i].ts) then
      AboveAll(es, i, best);
      MaxFrom(es, i + 1, i)
    else
      StrLtTotal(es[i].ts, es[best].ts);
      MaxFrom(es, i + 1, best)
  }

  /** An entry below the least of the first `i` is below each of them. */
  lemma BelowAll(es: seq<Entry>, i: nat, best: nat)
    requires best < i < |es| && StrLt(es[i].ts, es[best].ts)
    requires forall j :: 0 <= j < i ==> StrLe(es[best].ts, es[j].ts)
    ensures forall j :: 0 <= j < i ==> StrLt(es[i].ts, es[j].ts)
  {
    forall j | 0 <= j < i
      ensures StrLt(es[i].ts, es[j].ts)
    {
      if es[best].ts != es[j].ts {
        StrLtTransitive(es[i].ts, es[best].ts, es[j].ts);
      }
    }
  }

  /** An entry above the greatest of the first `i` is above each of them. */
  lemma AboveAll(es: seq<Entry>, i: nat, best: nat)
    requires best < i < |es| && StrLt(es[best].ts, es[i].ts)
    requires forall j :: 0 <= j < i ==> StrLe(es[j].ts, es[best].ts)
    ensures forall j :: 0 <= j < i ==> StrLt(es[j].ts, es[i].ts)
  {
    forall j | 0 <= j < i
      ensures StrLt(es[j].ts, es[i].ts)
    {
      if es[best].ts != es[j].ts {
        StrLtTransitive(es[j].ts, es[best].ts, es[i].ts);
      }
    }
  }

  function FirstIndex(es: seq<Entry>): nat
    requires |es| > 0
  {
    MinFrom(es, 1, 0)
  }

  function LastIndex(es: seq<Entry>): nat
    requires |es| > 0
  {
    MaxFrom(es, 1, 0)
  }

  /** The entry `first` is the first stored one among those with the least timestamp,
      `last` the first stored one among those with the greatest, and first comes no
      later than last. */
  lemma FirstAndLast(es: seq<Entry>)
    requires |es| > 0
    ensures var f, g := FirstIndex(es), LastIndex(es);
      f < |es| && g < |es| &&
      (forall j :: 0 <= j < |es| ==> StrLe(es[f].ts, es[j].ts) && StrLe(es[j].ts, es[g].ts)) &&
      (forall j :: 0 <= j < f ==> StrLt(es[f].ts, es[j].ts)) &&
      (forall j :: 0 <= j < g ==> StrLt(es[j].ts, es[g].ts)) &&
      StrLe(es[f].ts, es[g].ts)
  {
  }

  /** `sorted(...)` of distinct strings: strictly increasing. */
  predicate StrictlySorted(ks: seq<string>)
  {
    forall i, j :: 0 <= i < j < |ks| ==> StrLt(ks[i], ks[j])
  }

  /** `sorted(t3s)`: the dictionary's labels in increasing string order. */
  method SortedLabels(labels: set<string>) returns (r: seq<string>)
    ensures StrictlySorted(r) && forall x :: x in r <==> x in labels
  {
    StrLtStrictTotalOrder();
    r := [];
    var rest := labels;
    while rest != {}
      invariant StrictlySorted(r)
      invariant forall x :: x in labels <==> x in r || x in rest
      invariant forall x :: x in r ==> x !in rest
      decreases rest
    {
      var x :| x in rest;
      var p := 0;
      while p < |r| && StrLt(r[p], x)
        invariant 0 <= p <= |r|
        invariant forall q :: 0 <= q < p ==> StrLt(r[q], x)
      {
        p := p + 1;
      }
      assert forall q :: p <= q < |r| ==> StrLt(x, r[q]) by {
        if p < |r| {
          assert r[p] != x && !StrLt(r[p], x);
          assert StrLt(x, r[p]);
        }
      }
      r := r[..p] + [x] + r[p..];
      rest := rest - {x};
    }
  }

  /** Every element after the head of a strictly sorted sequence is above the head. */
  lemma SortedTailAbove(a: seq<string>, x: string)
    requires StrictlySorted(a) && |a| > 0
    ensures x in a[1..] ==> StrLt(a[0], x)
  {
    if x in a[1..] {
      var i :| 0 <= i < |a[1..]| && a[1..][i] == x;
      assert a[i + 1] == x;
    }
  }

  lemma HeadIsMember(s: seq<string>)
    ensures |s| > 0 ==> s[0] in s
  {
  }

  /** Two strictly sorted sequences of the same strings are the same sequence, so the
      order of the rows does not depend on the order of the directory listing. */
  lemma {:induction false} SortedUnique(a: seq<string>, b: seq<string>)
    requires StrictlySorted(a) && StrictlySorted(b)
    requires forall x :: x in a <==> x in b
    ensures a == b
    decreases |a|
  {
    if |a| == 0 || |b| == 0 {
      HeadIsMember(a);
      HeadIsMember(b);
    } else {
      assert a == [a[0]] + a[1..] && b == [b[0]] + b[1..];
      SortedTailAbove(a, b[0]);
      SortedTailAbove(b, a[0]);
      StrLtAsymmetric(a[0], b[0]);
      StrLtIrreflexive(a[0]);
      assert b[0] in a && a[0] in b;
      assert a[0] == b[0];
      forall x
        ensures x in a[1..] <==> x in b[1..]
      {
        SortedTailAbove(a, x);
        SortedTailAbove(b, x);
        StrLtIrreflexive(x);
        assert x in a <==> x == a[0] || x in a[1..];
        assert x in b <==> x == b[0] || x in b[1..];
      }
      assert StrictlySorted(a[1..]) && StrictlySorted(b[1..]);
      SortedUnique(a[1..], b[1..]);
    }
  }

  /** `day = date or today`: an empty or missing date means today. */
  function DayOf(date: Option<string>, today: string): string
  {
    if date.Some? && date.value != "" then date.value else today
  }

  /** How the replies name the class; the T3 commands say "T3-as". */
  function Noun(cls: VehicleClass): string
  {
    if cls == T3 then "T3-as" else cls.Name()
  }

  function NoServiceText(cls: VehicleClass, day: string): string
  {
    "🚫 " + day + " napon nem közlekedett " + Noun(cls) + " villamos."
  }

  function HeaderText(cls: VehicleClass, day: string): string
  {
    "🚋 " + cls.Name() + " – forgalomban (" + day + ")"
  }

  /** A vehicle's row: label, first and last `HH:MM`, and the line of the first entry. */
  function RowText(reg: string, es: seq<Entry>): (r: string)
    requires |es| > 0
    ensures StartsWith(r, reg + " — ")
    ensures EndsWith(r, " (vonal " + es[FirstIndex(es)].lineNo + ")")
  {
    var first, last := es[FirstIndex(es)], es[LastIndex(es)];
    reg + " — " + Slice(first.ts, 11, 16) + " → " + Slice(last.ts, 11, 16) + " (vonal " + first.lineNo + ")"
  }

  function Rows(t: Table, keys: seq<string>): seq<string>
    requires forall k :: 0 <= k < |keys| ==> keys[k] in t && |t[keys[k]]| > 0
  {
    seq(|keys|, k requires 0 <= k < |keys| => RowText(keys[k], t[keys[k]]))
  }

  /** The summary text: a header, then one row per label in the given order. */
  function ReportText(cls: VehicleClass, day: string, t: Table, keys: seq<string>): string
    requires forall k :: 0 <= k < |keys| ==> keys[k] in t && |t[keys[k]]| > 0
  {
    Join("\n", [HeaderText(cls, day)] + Rows(t, keys))
  }

  /** `HH:MM` of a timestamp is its characters 11..15. */
  lemma TimeOfDay(ts: string)
    requires IsTimestamp(ts)
    ensures Slice(ts, 11, 16) == ts[11..16] && |Slice(ts, 11, 16)| == 5 && Slice(ts, 11, 16)[2] == ':'
  {
  }

  /** The labels of a dictionary in the order the summary lists them, each with entries. */
  ghost predicate ListsInOrder(t: Table, keys: seq<string>)
  {
    StrictlySorted(keys) && (forall x :: x in keys <==> x in t) &&
    forall k :: 0 <= k < |keys| ==> keys[k] in t && |t[keys[k]]| > 0
  }

  /** The messages of a summary: a text cut into slices of 1900 characters (the last one
      possibly shorter, none empty), which put back together give the summary of the dictionary with its labels in sorted order. */
  ghost predicate IsSummary(parts: seq<string>, cls: VehicleClass, day: string, t: Table)
  {
    (forall k :: 0 <= k < |parts| ==> 0 < |parts[k]| <= Paging.MessageLimit) &&
    (forall k :: 0 <= k < |parts| - 1 ==> |parts[k]| == Paging.MessageLimit) &&
    exists keys :: ListsInOrder(t, keys) && Paging.Concat(parts) == ReportText(cls, day, t, keys)
  }

  /** Building the rows and sending the text in slices. */
  method SummaryMessages(cls: VehicleClass, day: string, t: Table, keys: seq<string>) returns (parts: seq<string>)
    requires ListsInOrder(t, keys)
    ensures IsSummary(parts, cls, day, t)
  {
    var out := [HeaderText(cls, day)];
    for k := 0 to |keys|
      invariant out == [HeaderText(cls, day)] + Rows(t, keys[..k])
    {
      RowsSnoc(t, keys, k);
      out := out + [RowText(keys[k], t[keys[k]])];
    }
    assert keys[..|keys|] == keys;
    var msg := Join("\n", out);
    assert msg == ReportText(cls, day, t, keys);
    parts := Paging.Chunk(msg);
  }

  /** The rows of one more label are the rows so far and that label's row. */
  lemma RowsSnoc(t: Table, keys: seq<string>, k: nat)
    requires k < |keys| && forall j :: 0 <= j < |keys| ==> keys[j] in t && |t[keys[j]]| > 0
    ensures Rows(t, keys[..k + 1]) == Rows(t, keys[..k]) + [RowText(keys[k], t[keys[k]])]
  {
    assert keys[..k + 1][k] == keys[k];
  }

  /** A whole `*today` command: the messages it sends, or `None` when it raises. */
  method DailyReply(files: Files, listing: seq<string>, date: Option<string>, today: string, cls: VehicleClass)
    returns (reply: Option<seq<string>>)
    ensures var day := DayOf(date, today);
      reply.None? <==> Collected(files, listing, day, cls).None?
    ensures var day := DayOf(date, today);
      Collected(files, listing, day, cls) == Some(map[]) ==> reply == Some([NoServiceText(cls, day)])
    ensures var day := DayOf(date, today);
      var c := Collected(files, listing, day, cls);
      c.Some? && c.value != map[] ==> reply.Some? && IsSummary(reply.value, cls, day, c.value)
  {
    var day := if date.Some? && date.value != "" then date.value else today;
    var collected := Collect(files, listing, day, cls);
    if collected.None? {
      return None;
    }
    var t := collected.value;
    if t == map[] {
      return Some([NoServiceText(cls, day)]);
    }
    var keys := SortedLabels(t.Keys);
    CollectedSound(files, listing, day, cls);
    var parts := SummaryMessages(cls, day, t, keys);
    reply := Some(parts);
  }
}
