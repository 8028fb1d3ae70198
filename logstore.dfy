/** The bot's on-disk log (`save_trip`): a per-day, per-trip record written the first
    time a trip is seen, and a per-vehicle history to which a line is appended whenever
    the vehicle is seen on a trip other than the one its last line names.

    The file system is a map from path to the file's lines (what `splitlines()` reads
    back); a path that is absent is a file that does not exist. */
module LogStore {
  import opened Wrappers
  import opened PyStr
  import Classifier

  type Files = map<string, seq<string>>

  /** `%Y-%m-%d %H:%M:%S`, with `d` standing for a decimal digit. */
  const TimestampFormat: string := "dddd-dd-dd dd:dd:dd"

  predicate FitsFormat(c: char, f: char)
  {
    if f == 'd' then Classifier.IsDigitChar(c) else c == f
  }

  /** A reading of the clock formatted as `%Y-%m-%d %H:%M:%S`. */
  predicate IsTimestamp(ts: string)
  {
    |ts| == |TimestampFormat| && forall i :: 0 <= i < |ts| ==> FitsFormat(ts[i], TimestampFormat[i])
  }

  /** A reading of the clock formatted as `%Y-%m-%d`. */
  predicate IsDay(d: string)
  {
    |d| == 10 && forall i :: 0 <= i < |d| ==> FitsFormat(d[i], TimestampFormat[i])
  }

  /** The two clock readings one `save_trip` call takes: the day names the trip file's
      directory, the timestamp goes into both files. They are read separately, so around
      midnight the timestamp's date need not be the day. */
  datatype Stamp = Stamp(today: string, ts: string)

  /** What the poller passes to `save_trip` for one vehicle of the feed. */
  datatype Observation = Observation(tripId: string, line: string, vehicle: string, dest: string)

  /** One `save_trip` call: an observation and the clock readings it is saved with. */
  datatype Event = Event(obs: Observation, at: Stamp)

  function TripPath(today: string, tripId: string): string
  {
    "logs/" + today + "/" + tripId + ".txt"
  }

  function VehiclePath(vehicle: string): string
  {
    "logs/veh/" + vehicle + ".txt"
  }

  /** The six lines of a trip file. */
  function TripRecord(e: Event): seq<string>
  {
    ["Dátum: " + e.at.today,
     "ID: " + e.obs.tripId,
     "Vonal: " + e.obs.line,
     "Cél: " + e.obs.dest,
     "Jármű: " + e.obs.vehicle,
     "Első észlelés: " + e.at.ts]
  }

  /** One line of a vehicle history. */
  function LogLine(ts: string, tripId: string, line: string, dest: string): string
  {
    ts + " - ID " + tripId + " - Vonal " + line + " - " + dest
  }

  function EventLine(e: Event): string
  {
    LogLine(e.at.ts, e.obs.tripId, e.obs.line, e.obs.dest)
  }

  /** The lines of the file at `p`; a missing file reads as no lines. */
  function Lines(files: Files, p: string): seq<string>
  {
    if p in files then files[p] else []
  }

  /** `s.split(key)[1].split(" ")[0]`, or `None` where Python raises `IndexError`
      because `key` does not occur in `s`. */
  function WordAfter(s: string, key: string): (r: Option<string>)
    requires |key| > 0
    ensures r.Some? <==> Contains(s, key)
    ensures r.Some? ==> NoSpace(r.value)
  {
    if Contains(s, key) then
      SplitHeadWithout(Split(s, key)[1], ' ');
      Some(Split(Split(s, key)[1], " ")[0])
    else None
  }

  /** `s.split(" - ")[0]`: the timestamp field of a history line. */
  function TsField(s: string): string
  {
    Split(s, " - ")[0]
  }

  /** The trip a history names last, as `save_trip` reads it: the word after "ID " in
      the last line, or `None` when there is no line or the last one has no "ID ". */
  function LastTripId(lines: seq<string>): Option<string>
  {
    if |lines| == 0 then None else WordAfter(lines[|lines| - 1], "ID ")
  }

  /** The first half of `save_trip`: the trip file is created only when it is missing. */
  function WithTripFile(files: Files, e: Event): (r: Files)
    ensures TripPath(e.at.today, e.obs.tripId) in r
    ensures TripPath(e.at.today, e.obs.tripId) in files ==> r == files
    ensures TripPath(e.at.today, e.obs.tripId) !in files ==>
              r[TripPath(e.at.today, e.obs.tripId)] == TripRecord(e) && r - {TripPath(e.at.today, e.obs.tripId)} == files
  {
    var tp := TripPath(e.at.today, e.obs.tripId);
    if tp in files then files else files[tp := TripRecord(e)]
  }

  /** The second half: a history line is appended unless the history's last line
      already names this trip. */
  function WithVehicleLine(files: Files, e: Event): (r: Files)
    ensures VehiclePath(e.obs.vehicle) in r
    ensures Lines(files, VehiclePath(e.obs.vehicle)) <= r[VehiclePath(e.obs.vehicle)]
    ensures |r[VehiclePath(e.obs.vehicle)]| <= |Lines(files, VehiclePath(e.obs.vehicle))| + 1
    ensures r - {VehiclePath(e.obs.vehicle)} == files - {VehiclePath(e.obs.vehicle)}
  {
    var vp := VehiclePath(e.obs.vehicle);
    if LastTripId(Lines(files, vp)) == Some(e.obs.tripId) then files
    else files[vp := Lines(files, vp) + [EventLine(e)]]
  }

  /** The files after one `save_trip` call. */
  function Saved(files: Files, e: Event): (r: Files)
    ensures r.Keys == files.Keys + {TripPath(e.at.today, e.obs.tripId), VehiclePath(e.obs.vehicle)}
  {
    WithVehicleLine(WithTripFile(files, e), e)
  }

  /** The files after `save_trip` is called for each event in turn. */
  function SaveAll(files: Files, evs: seq<Event>): Files
    decreases |evs|
  {
    if |evs| == 0 then files else SaveAll(Saved(files, evs[0]), evs[1..])
  }

  /** The log directory, updated in place. */
  class FileStore {
    var files: Files

    constructor()
      ensures files == map[]
    {
      files := map[];
    }

    /** `save_trip(trip_id, line, vehicle, dest)` with the clock readings of `e.at`. */
    method SaveTrip(e: Event)
      modifies this
      ensures files == Saved(old(files), e)
      ensures forall p :: p in old(files) ==> p in files && old(files)[p] <= files[p]
    {
      ghost var before := files;
      var tp := TripPath(e.at.today, e.obs.tripId);
      if tp !in files {
        files := files[tp := TripRecord(e)];
      }
      var vp := VehiclePath(e.obs.vehicle);
      var lastId: Option<string> := None;
      if vp in files {
        var lines := files[vp];
        if |lines| > 0 && Contains(lines[|lines| - 1], "ID ") {
          lastId := Some(Split(Split(lines[|lines| - 1], "ID ")[1], " ")[0]);
        }
      }
      if lastId != Some(e.obs.tripId) {
        files := files[vp := Lines(files, vp) + [EventLine(e)]];
      }
      SavedOnlyGrows(before, e);
    }
  }

  /** A trip id that `save_trip` reads back from the history line it wrote: no space, and
      not ending in "ID", which would make the key "ID " occur inside it. */
  predicate IsTripWord(w: string)
  {
    NoSpace(w) && !EndsWith(w, "ID")
  }

  /** A word that can stand before the key "Vonal " in a history line without hiding it:
      no space, and not ending in "Vonal", which would make the key occur inside it. */
  predicate IsFieldWord(w: string)
  {
    NoSpace(w) && !EndsWith(w, "Vonal")
  }

  /** An event whose clock readings are well formed and whose trip `save_trip` reads back
      from the history line it writes; the deduplication needs nothing of the line. */
  predicate TripReadable(e: Event)
  {
    IsDay(e.at.today) && IsTimestamp(e.at.ts) && IsTripWord(e.obs.tripId)
  }

  /** An event whose trip and line can both be read back from its history line, as the
      daily summary reads them. */
  predicate Loggable(e: Event)
  {
    TripReadable(e) && IsFieldWord(e.obs.tripId) && IsFieldWord(e.obs.line)
  }

  /** A timestamp contains none of the characters that start a field key. */
  lemma TimestampChars(ts: string)
    requires IsTimestamp(ts)
    ensures forall i :: 0 <= i < |ts| ==> ts[i] != 'I' && ts[i] != 'V'
    ensures forall i :: 0 <= i < |ts| && i != 10 ==> ts[i] != ' '
    ensures ts[11] != '-'
  {
  }

  /** A history line's timestamp field is the timestamp it was written with. */
  lemma LogLineTs(ts: string, tripId: string, line: string, dest: string)
    requires IsTimestamp(ts)
    ensures TsField(LogLine(ts, tripId, line, dest)) == ts
  {
    var s := LogLine(ts, tripId, line, dest);
    var rest := " - ID " + tripId + " - Vonal " + line + " - " + dest;
    assert s == ts + rest;
    TimestampChars(ts);
    forall j: nat | j < |ts|
      ensures !OccursAt(s, " - ", j)
    {
      if j == 10 {
        NoOccurrenceAt(s, " - ", j, 1);
      } else {
        NoOccurrenceAt(s, " - ", j, 0);
      }
    }
    assert OccursAt(s, " - ", |ts|);
    FindIs(s, " - ", |ts|);
    SplitAt(s, " - ", |ts|);
  }

  /** The key "ID " first occurs right after the timestamp and its separator. */
  lemma IdKeyAt(ts: string, tripId: string, line: string, dest: string)
    requires IsTimestamp(ts)
    ensures Find(LogLine(ts, tripId, line, dest), "ID ") == Some(|ts| + 3)
  {
    var x := ts + " - ";
    var y := "ID " + tripId + " - Vonal " + line + " - " + dest;
    assert LogLine(ts, tripId, line, dest) == x + y;
    TimestampChars(ts);
    FindSkipNoLead(x, y, "ID ");
    FindIs(y, "ID ", 0);
  }

  /** The key "Vonal " first occurs right after the trip field. */
  lemma VonalKeyAt(ts: string, tripId: string, line: string, dest: string)
    requires IsTimestamp(ts) && IsFieldWord(tripId)
    ensures Find(LogLine(ts, tripId, line, dest), "Vonal ") == Some(|ts| + 6 + |tripId| + 3)
  {
    var x := ts + " - ID ";
    var y := "Vonal " + line + " - " + dest;
    var w := "- " + y;
    assert LogLine(ts, tripId, line, dest) == x + (tripId + " " + w);
    TimestampChars(ts);
    FindSkipNoLead("- ", y, "Vonal ");
    FindIs(y, "Vonal ", 0);
    assert "Vonal" + " " == "Vonal ";
    FindAfterWord(tripId, w, "Vonal");
    FindSkipNoLead(x, tripId + " " + w, "Vonal ");
  }

  /** The trip a history line names is the trip it was written for. */
  lemma LogLineTripId(ts: string, tripId: string, line: string, dest: string)
    requires IsTimestamp(ts) && IsTripWord(tripId)
    ensures WordAfter(LogLine(ts, tripId, line, dest), "ID ") == Some(tripId)
  {
    var s := LogLine(ts, tripId, line, dest);
    var w := "- Vonal " + line + " - " + dest;
    IdKeyAt(ts, tripId, line, dest);
    assert "ID" + " " == "ID ";
    assert s[|ts| + 3 + 3..] == tripId + " " + w;
    WordAfterKeyAt(s, "ID", |ts| + 3, tripId, w);
  }

  /** The line a history line names is the line it was written for. */
  lemma LogLineLine(ts: string, tripId: string, line: string, dest: string)
    requires IsTimestamp(ts) && IsFieldWord(tripId) && IsFieldWord(line)
    ensures WordAfter(LogLine(ts, tripId, line, dest), "Vonal ") == Some(line)
  {
    var s := LogLine(ts, tripId, line, dest);
    var k := |ts| + 6 + |tripId| + 3;
    VonalKeyAt(ts, tripId, line, dest);
    assert "Vonal" + " " == "Vonal ";
    assert s[k + 6..] == line + " " + ("- " + dest);
    WordAfterKeyAt(s, "Vonal", k, line, "- " + dest);
  }

  /** Reading back the history line of a loggable event gives its timestamp, trip and line,
      also when the line is read with its line break, as `for line in f` reads it. */
  lemma EventLineFields(e: Event, tail: string)
    requires Loggable(e)
    ensures TsField(EventLine(e) + tail) == e.at.ts
    ensures WordAfter(EventLine(e) + tail, "ID ") == Some(e.obs.tripId)
    ensures WordAfter(EventLine(e) + tail, "Vonal ") == Some(e.obs.line)
  {
    var o := e.obs;
    assert EventLine(e) + tail == LogLine(e.at.ts, o.tripId, o.line, o.dest + tail);
    LogLineTs(e.at.ts, o.tripId, o.line, o.dest + tail);
    LogLineTripId(e.at.ts, o.tripId, o.line, o.dest + tail);
    LogLineLine(e.at.ts, o.tripId, o.line, o.dest + tail);
  }

  /** After a history line is appended, the history names that line's trip last. */
  lemma LastTripIdAfterAppend(lines: seq<string>, e: Event)
    requires TripReadable(e)
    ensures LastTripId(lines + [EventLine(e)]) == Some(e.obs.tripId)
  {
    LogLineTripId(e.at.ts, e.obs.tripId, e.obs.line, e.obs.dest);
  }

  /** Trip files and history files never share a path. */
  lemma PathsDistinct(today: string, tripId: string, vehicle: string)
    requires IsDay(today)
    ensures TripPath(today, tripId) != VehiclePath(vehicle)
  {
    assert TripPath(today, tripId)[5] == today[0];
    assert VehiclePath(vehicle)[5] == 'v';
  }

  /** Each vehicle has its own history file. */
  lemma VehiclePathInjective(a: string, b: string)
    requires VehiclePath(a) == VehiclePath(b)
    ensures a == b
  {
    var pa, pb := VehiclePath(a), VehiclePath(b);
    assert |a| == |b|;
    assert pa[9..9 + |a|] == a && pb[9..9 + |b|] == b;
  }

  /** The trip file is written once, with the first sighting's record; later calls leave it. */
  lemma TripFileWriteOnce(files: Files, e: Event)
    requires IsDay(e.at.today)
    ensures var tp := TripPath(e.at.today, e.obs.tripId);
      tp in Saved(files, e) &&
      Saved(files, e)[tp] == (if tp in files then files[tp] else TripRecord(e))
  {
    PathsDistinct(e.at.today, e.obs.tripId, e.obs.vehicle);
  }

  /** The history grows by the event's line exactly when its last line names another trip
      (or there is no such line). */
  lemma VehicleAppendRule(files: Files, e: Event)
    requires IsDay(e.at.today)
    ensures var vp := VehiclePath(e.obs.vehicle);
      Lines(Saved(files, e), vp) ==
        Lines(files, vp) + (if LastTripId(Lines(files, vp)) == Some(e.obs.tripId) then [] else [EventLine(e)])
  {
    PathsDistinct(e.at.today, e.obs.tripId, e.obs.vehicle);
    assert Lines(WithTripFile(files, e), VehiclePath(e.obs.vehicle)) == Lines(files, VehiclePath(e.obs.vehicle));
  }

  /** Only the event's two files change. */
  lemma SavedElsewhereUnchanged(files: Files, e: Event, p: string)
    requires p != TripPath(e.at.today, e.obs.tripId) && p != VehiclePath(e.obs.vehicle)
    ensures p in Saved(files, e) <==> p in files
    ensures p in files ==> Saved(files, e)[p] == files[p]
  {
  }

  /** `save_trip` deletes nothing and only ever extends a file. */
  lemma SavedOnlyGrows(files: Files, e: Event)
    ensures forall p :: p in files ==> p in Saved(files, e) && files[p] <= Saved(files, e)[p]
  {
  }

  /** Whatever the history held before, it names the event's trip last afterwards. */
  lemma SavedLastTripId(files: Files, e: Event)
    requires TripReadable(e)
    ensures LastTripId(Lines(Saved(files, e), VehiclePath(e.obs.vehicle))) == Some(e.obs.tripId)
  {
    VehicleAppendRule(files, e);
    var vp := VehiclePath(e.obs.vehicle);
    if LastTripId(Lines(files, vp)) != Some(e.obs.tripId) {
      LastTripIdAfterAppend(Lines(files, vp), e);
    }
  }

  /** Saving the same observation again on the same day changes nothing. */
  lemma SavedIdempotent(files: Files, e: Event, later: Stamp)
    requires TripReadable(e) && later.today == e.at.today
    ensures Saved(Saved(files, e), Event(e.obs, later)) == Saved(files, e)
  {
    var f1 := Saved(files, e);
    TripFileWriteOnce(files, e);
    SavedLastTripId(files, e);
    assert WithTripFile(f1, Event(e.obs, later)) == f1;
  }

  /** The history lines vehicle `v` gains from `evs`, given the trip its history names
      last: one line for each of its events whose trip differs from that vehicle's
      previous trip. */
  function Appended(v: string, last: Option<string>, evs: seq<Event>): seq<string>
    decreases |evs|
  {
    if |evs| == 0 then []
    else if evs[0].obs.vehicle != v then Appended(v, last, evs[1..])
    else (if last == Some(evs[0].obs.tripId) then [] else [EventLine(evs[0])])
         + Appended(v, Some(evs[0].obs.tripId), evs[1..])
  }

  /** Another vehicle's event leaves `v`'s history alone. */
  lemma OtherVehicleUntouched(files: Files, e: Event, v: string)
    requires IsDay(e.at.today) && e.obs.vehicle != v
    ensures Lines(Saved(files, e), VehiclePath(v)) == Lines(files, VehiclePath(v))
  {
    PathsDistinct(e.at.today, e.obs.tripId, v);
    if VehiclePath(v) == VehiclePath(e.obs.vehicle) {
      VehiclePathInjective(v, e.obs.vehicle);
    }
  }

  lemma ConcatAssoc(a: seq<string>, b: seq<string>, c: seq<string>)
    ensures a + b + c == a + (b + c)
  {
  }

  /** One `save_trip` call, seen from vehicle `v`'s history: what it gains and which trip
      it names last afterwards. */
  lemma HistoryStep(files: Files, e: Event, v: string)
    requires TripReadable(e)
    ensures var before := Lines(files, VehiclePath(v));
      Lines(Saved(files, e), VehiclePath(v)) ==
        before + (if e.obs.vehicle != v || LastTripId(before) == Some(e.obs.tripId) then [] else [EventLine(e)])
    ensures LastTripId(Lines(Saved(files, e), VehiclePath(v))) ==
      (if e.obs.vehicle != v then LastTripId(Lines(files, VehiclePath(v))) else Some(e.obs.tripId))
  {
    if e.obs.vehicle != v {
      OtherVehicleUntouched(files, e, v);
    } else {
      VehicleAppendRule(files, e);
      SavedLastTripId(files, e);
    }
  }

  /** After a run of `save_trip` calls, each vehicle's history is what it was plus one
      line per change of trip among that vehicle's events. */
  lemma {:induction false} HistoryAfterSaveAll(files: Files, evs: seq<Event>, v: string)
    requires forall i :: 0 <= i < |evs| ==> TripReadable(evs[i])
    ensures Lines(SaveAll(files, evs), VehiclePath(v)) ==
            Lines(files, VehiclePath(v)) + Appended(v, LastTripId(Lines(files, VehiclePath(v))), evs)
    decreases |evs|
  {
    if |evs| > 0 {
      var e, rest := evs[0], evs[1..];
      var f1 := Saved(files, e);
      var vp := VehiclePath(v);
      var last := LastTripId(Lines(files, vp));
      HistoryStep(files, e, v);
      assert forall i :: 0 <= i < |rest| ==> TripReadable(rest[i]) by {
        forall i | 0 <= i < |rest| ensures TripReadable(rest[i]) { assert rest[i] == evs[i + 1]; }
      }
      HistoryAfterSaveAll(f1, rest, v);
      assert SaveAll(files, evs) == SaveAll(f1, rest);
      if e.obs.vehicle == v {
        var added := if last == Some(e.obs.tripId) then [] else [EventLine(e)];
        assert Appended(v, last, evs) == added + Appended(v, Some(e.obs.tripId), rest);
        ConcatAssoc(Lines(files, vp), added, Appended(v, Some(e.obs.tripId), rest));
      } else {
        assert Appended(v, last, evs) == Appended(v, last, rest);
      }
    }
  }

  /** A vehicle seen three times on the same trip gets one history line. */
  lemma SameTripLoggedOnce(files: Files, e1: Event, e2: Event, e3: Event)
    requires TripReadable(e1) && TripReadable(e2) && TripReadable(e3)
    requires e2.obs.vehicle == e1.obs.vehicle && e3.obs.vehicle == e1.obs.vehicle
    requires e2.obs.tripId == e1.obs.tripId && e3.obs.tripId == e1.obs.tripId
    requires VehiclePath(e1.obs.vehicle) !in files
    ensures Lines(SaveAll(files, [e1, e2, e3]), VehiclePath(e1.obs.vehicle)) == [EventLine(e1)]
  {
    var evs, v, t := [e1, e2, e3], e1.obs.vehicle, Some(e1.obs.tripId);
    HistoryAfterSaveAll(files, evs, v);
    assert evs[1..] == [e2, e3] && [e2, e3][1..] == [e3] && [e3][1..] == [];
    assert Appended(v, t, [e3]) == [];
    assert Appended(v, t, [e2, e3]) == [];
    assert Appended(v, None, evs) == [EventLine(e1)];
  }

  /** A vehicle that returns to an earlier trip after another one is logged three times. */
  lemma ReturningTripLoggedAgain(files: Files, e1: Event, e2: Event, e3: Event)
    requires TripReadable(e1) && TripReadable(e2) && TripReadable(e3)
    requires e2.obs.vehicle == e1.obs.vehicle && e3.obs.vehicle == e1.obs.vehicle
    requires e2.obs.tripId != e1.obs.tripId && e3.obs.tripId == e1.obs.tripId
    requires VehiclePath(e1.obs.vehicle) !in files
    ensures Lines(SaveAll(files, [e1, e2, e3]), VehiclePath(e1.obs.vehicle))
         == [EventLine(e1), EventLine(e2), EventLine(e3)]
  {
    var evs, v := [e1, e2, e3], e1.obs.vehicle;
    HistoryAfterSaveAll(files, evs, v);
    assert evs[1..] == [e2, e3] && [e2, e3][1..] == [e3] && [e3][1..] == [];
    assert Appended(v, Some(e2.obs.tripId), [e3]) == [EventLine(e3)];
    assert Appended(v, Some(e1.obs.tripId), [e2, e3]) == [EventLine(e2), EventLine(e3)];
    assert Appended(v, None, evs) == [EventLine(e1), EventLine(e2), EventLine(e3)];
  }
}
