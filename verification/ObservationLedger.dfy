/** The append-only ledger of bar observations: versions per bar, restart from the file, and what was
    known of a bar at a given time.
 */
module ObservationLedger {
  import opened Options

  type ValueHash(==, !new)

  const BAR_SECONDS := 60

  /** A bar of a contract, with the second it starts. */
  datatype Key = Key(contract: int, start: int)

  datatype Record = Record(sequence: nat, key: Key, observedAt: int, complete: bool, hash: ValueHash,
                           version: nat, isRevision: bool, previous: Option<ValueHash>)

  datatype Latest = Latest(hash: ValueHash, version: nat)

  // ---------------------------------------------------------------------------------------------
  // What a file of records says
  // ---------------------------------------------------------------------------------------------

  /** The highest sequence number of the file. */
  function TopSequence(file: seq<Record>): nat {
    if file == [] then 0
    else
      var top, r := TopSequence(file[..|file| - 1]), file[|file| - 1];
      if r.sequence > top then r.sequence else top
  }

  /** The newest entry of every bar. */
  function LatestOf(file: seq<Record>): map<Key, Latest> {
    if file == [] then map[]
    else
      var r := file[|file| - 1];
      LatestOf(file[..|file| - 1])[r.key := Latest(r.hash, r.version)]
  }

  /** The hashes observed for one bar, in order. */
  function History(file: seq<Record>, key: Key): seq<ValueHash> {
    if file == [] then []
    else
      var r := file[|file| - 1];
      History(file[..|file| - 1], key) + if r.key == key then [r.hash] else []
  }

  /** How often a value differs from the one before it. */
  function ValueChanges(h: seq<ValueHash>): nat {
    if |h| < 2 then 0 else ValueChanges(h[..|h| - 1]) + if h[|h| - 1] != h[|h| - 2] then 1 else 0
  }

  /** What observing a value means for a file: one more version than the bar's value has changed, and whether
      this observation is such a change. The number comes from the ledger's counter. */
  function Observation(file: seq<Record>, number: nat, key: Key, hash: ValueHash, observedAt: int): Record {
    var h := History(file, key);
    var revised := h != [] && h[|h| - 1] != hash;
    Record(number, key, observedAt, observedAt >= key.start + BAR_SECONDS, hash,
           1 + ValueChanges(h + [hash]), revised, if revised then Some(h[|h| - 1]) else None)
  }

  /** A file written by ledgers: numbers rise. */
  ghost predicate WrittenByLedger(file: seq<Record>) {
    file == [] ||
    var n := |file| - 1;
    var r := file[n];
    WrittenByLedger(file[..n]) && r.sequence > TopSequence(file[..n])
    && r == Observation(file[..n], r.sequence, r.key, r.hash, r.observedAt)
  }

  lemma OneMore(file: seq<Record>, r: Record)
    ensures TopSequence(file + [r]) == (if r.sequence > TopSequence(file) then r.sequence else TopSequence(file))
    ensures LatestOf(file + [r]) == LatestOf(file)[r.key := Latest(r.hash, r.version)]
    ensures WrittenByLedger(file + [r]) <==>
              && WrittenByLedger(file) && r.sequence > TopSequence(file)
              && r == Observation(file, r.sequence, r.key, r.hash, r.observedAt)
  {
    assert (file + [r])[..|file|] == file;
  }

  /** What the in-memory map of a ledger means for its file, and what the highest number is. */
  lemma {:induction false} LatestMeans(file: seq<Record>, key: Key)
    requires WrittenByLedger(file)
    ensures |file| <= TopSequence(file) && (file != [] ==> TopSequence(file) == file[|file| - 1].sequence)
    ensures key in LatestOf(file) <==> History(file, key) != []
    ensures key in LatestOf(file) ==>
              var h := History(file, key);
              LatestOf(file)[key] == Latest(h[|h| - 1], 1 + ValueChanges(h))
  {
    if file != [] {
      LatestMeans(file[..|file| - 1], key);
      assert History(file[..|file| - 1], key) + [] == History(file[..|file| - 1], key);
    }
  }

  /** Record `j` is the last one of a bar among the first `n`. */
  ghost predicate LastSeen(file: seq<Record>, key: Key, j: int, n: int) {
    && 0 <= j < n <= |file| && file[j].key == key
    && forall i :: j < i < n ==> file[i].key != key
  }

  /** What the hashes of a bar among the first `n` records are: none if it has no record, and otherwise its last one
      after those before it. */
  lemma {:induction false} HistoryNone(file: seq<Record>, key: Key, n: nat)
    requires n <= |file| && forall i :: 0 <= i < n ==> file[i].key != key
    ensures History(file[..n], key) == []
  {
    hide History;
    HistoryStarts(file, key);
    if n > 0 {
      HistoryNone(file, key, n - 1);
      HistoryOneMore(file, key, n - 1);
    }
  }

  lemma {:induction false} HistoryEnds(file: seq<Record>, key: Key, j: nat, n: nat)
    requires LastSeen(file, key, j, n)
    ensures History(file[..n], key) == History(file[..j], key) + [file[j].hash]
    decreases n
  {
    hide History;
    HistoryOneMore(file, key, n - 1);
    if j < n - 1 {
      HistoryEnds(file, key, j, n - 1);
    }
  }

  lemma HistoryStarts(file: seq<Record>, key: Key)
    ensures History(file[..0], key) == []
  {
  }

  lemma HistoryOneMore(file: seq<Record>, key: Key, n: nat)
    requires n < |file|
    ensures History(file[..n + 1], key)
         == if file[n].key == key then History(file[..n], key) + [file[n].hash] else History(file[..n], key)
  {
    assert file[..n + 1][..n] == file[..n];
    assert History(file[..n], key) + [] == History(file[..n], key);
  }

  lemma {:induction false} EachIsObserved(file: seq<Record>, n: nat)
    requires WrittenByLedger(file) && n < |file|
    ensures var r := file[n];
            && WrittenByLedger(file[..n]) && r.sequence > TopSequence(file[..n])
            && r == Observation(file[..n], r.sequence, r.key, r.hash, r.observedAt)
  {
    var last := |file| - 1;
    if n < last {
      EachIsObserved(file[..last], n);
      assert file[..last][..n] == file[..n];
    }
  }

  /** A record against the last of the hashes before it. */
  lemma ObservationTells(h: seq<ValueHash>, hash: ValueHash)
    ensures ValueChanges(h + [hash])
         == ValueChanges(h) + if h != [] && h[|h| - 1] != hash then 1 else 0
  {
    assert (h + [hash])[..|h|] == h;
  }

  lemma FirstRecordTells(file: seq<Record>, n: nat)
    requires WrittenByLedger(file) && n < |file| && forall i :: 0 <= i < n ==> file[i].key != file[n].key
    ensures file[n].version == 1 && !file[n].isRevision && file[n].previous == None
  {
    hide WrittenByLedger, TopSequence, History;
    EachIsObserved(file, n);
    HistoryNone(file, file[n].key, n);
  }

  lemma NextRecordTells(file: seq<Record>, j: nat, n: nat)
    requires WrittenByLedger(file) && n < |file| && LastSeen(file, file[n].key, j, n)
    ensures file[n].isRevision <==> file[n].hash != file[j].hash
    ensures file[n].previous == if file[n].hash != file[j].hash then Some(file[j].hash) else None
    ensures file[n].version == file[j].version + if file[n].hash != file[j].hash then 1 else 0
  {
    hide WrittenByLedger, TopSequence, History, ValueChanges;
    EachIsObserved(file, j);
    EachIsObserved(file, n);
    HistoryEnds(file, file[n].key, j, n);
    ObservationTells(History(file[..n], file[n].key), file[n].hash);
  }

  /** What the records of a file say. A bar is complete once sixty seconds have passed since its start. The first
      record of a bar has version 1 and revises nothing. Any other is compared with the bar's last one before it: if
      the hash differs it is a revision, names that hash and has the next version, and if not the version stays. */
  lemma RecordsTell(file: seq<Record>, n: nat)
    requires WrittenByLedger(file) && n < |file|
    ensures file[n].complete <==> file[n].observedAt >= file[n].key.start + 60
    ensures (forall i :: 0 <= i < n ==> file[i].key != file[n].key) ==>
              file[n].version == 1 && !file[n].isRevision && file[n].previous == None
    ensures forall j :: LastSeen(file, file[n].key, j, n) ==>
              && (file[n].isRevision <==> file[n].hash != file[j].hash)
              && file[n].previous == (if file[n].hash != file[j].hash then Some(file[j].hash) else None)
              && file[n].version == file[j].version + (if file[n].hash != file[j].hash then 1 else 0)
  {
    hide WrittenByLedger, TopSequence, History, ValueChanges;
    EachIsObserved(file, n);
    hide Observation;
    if forall i :: 0 <= i < n ==> file[i].key != file[n].key {
      FirstRecordTells(file, n);
    }
    forall j | LastSeen(file, file[n].key, j, n)
      ensures file[n].isRevision <==> file[n].hash != file[j].hash
      ensures file[n].previous == if file[n].hash != file[j].hash then Some(file[j].hash) else None
      ensures file[n].version == file[j].version + if file[n].hash != file[j].hash then 1 else 0
    {
      NextRecordTells(file, j, n);
    }
  }

  /** The numbers rise along the file. */
  lemma {:induction false} NumbersRise(file: seq<Record>, i: nat, j: nat)
    requires WrittenByLedger(file) && i < j < |file|
    ensures file[i].sequence < file[j].sequence
  {
    EachIsObserved(file, j);
    BelowTop(file[..j], i);
  }

  lemma {:induction false} BelowTop(file: seq<Record>, i: nat)
    requires i < |file|
    ensures file[i].sequence <= TopSequence(file)
  {
    if i < |file| - 1 {
      BelowTop(file[..|file| - 1], i);
    }
  }

  // ---------------------------------------------------------------------------------------------
  // The ledger
  // ---------------------------------------------------------------------------------------------

  class LedgerFile {
    var records: seq<Record>

    constructor ()
      ensures records == []
    {
      records := [];
    }
  }

  class Ledger {
    const file: LedgerFile
    var latest: map<Key, Latest>
    var sequence: nat

    ghost predicate Valid()
      reads this, file
    {
      WrittenByLedger(file.records) && latest == LatestOf(file.records) && sequence >= TopSequence(file.records)
    }

    /** Opening a ledger rebuilds its memory from whatever the file holds. */
    constructor (file: LedgerFile)
      requires WrittenByLedger(file.records)
      ensures this.file == file && Valid() && sequence == TopSequence(file.records)
    {
      hide WrittenByLedger;
      this.file := file;
      latest, sequence := map[], 0;
      new;
      for i := 0 to |file.records|
        invariant file.records == old(file.records)
        invariant latest == LatestOf(file.records[..i]) && sequence == TopSequence(file.records[..i])
      {
        var prior := file.records[i];
        assert file.records[..i + 1] == file.records[..i] + [prior];
        OneMore(file.records[..i], prior);
        latest := latest[prior.key := Latest(prior.hash, prior.version)];
        sequence := if sequence >= prior.sequence then sequence else prior.sequence;
      }
      assert file.records[..|file.records|] == file.records;
    }

    /** Records an observation, unchanged repeats included. A bar is complete once its minute is over. If the
        rest of the record is not sound, the call raises before anything is written, but after it has
        counted. */
    method Append(key: Key, hash: ValueHash, observedAt: int, sound: bool) returns (r: Option<Record>)
      requires Valid()
      modifies this, file
      ensures Valid() && sequence == old(sequence) + 1
      ensures !sound ==> r.None? && file.records == old(file.records)
      ensures sound ==>
                && r == Some(Observation(old(file.records), sequence, key, hash, observedAt))
                && file.records == old(file.records) + [r.value]
    {
      hide WrittenByLedger, LatestOf, TopSequence, History;
      LatestMeans(file.records, key);
      ghost var h := History(file.records, key);
      assert (h + [hash])[..|h|] == h;
      var isRevision := key in latest && latest[key].hash != hash;
      var version := if isRevision then latest[key].version + 1
                     else if key in latest then latest[key].version else 1;
      sequence := sequence + 1;
      if !sound {
        return None;
      }
      var record := Record(sequence, key, observedAt, observedAt >= key.start + BAR_SECONDS, hash, version,
                           isRevision, if isRevision then Some(latest[key].hash) else None);
      OneMore(file.records, record);
      file.records := file.records + [record];
      latest := latest[key := Latest(hash, version)];
      r := Some(record);
    }
  }

  // ---------------------------------------------------------------------------------------------
  // Restarts
  // ---------------------------------------------------------------------------------------------

  datatype Sighting = Sighting(key: Key, hash: ValueHash, observedAt: int, sound: bool)

  /** The file of a ledger that is never closed: its counter counts every call. */
  function Written(seen: seq<Sighting>): (file: seq<Record>)
    ensures WrittenByLedger(file) && TopSequence(file) <= |seen|
  {
    if seen == [] then []
    else
      var n := |seen| - 1;
      if !seen[n].sound then Written(seen[..n])
      else
        var r := Observation(Written(seen[..n]), n + 1, seen[n].key, seen[n].hash, seen[n].observedAt);
        OneMore(Written(seen[..n]), r);
        Written(seen[..n]) + [r]
  }

  /** The files agree in everything but the numbers. */
  ghost predicate SameButNumbers(a: seq<Record>, b: seq<Record>) {
    |a| == |b| && forall i :: 0 <= i < |a| ==> b[i] == a[i].(sequence := b[i].sequence)
  }

  lemma {:induction false} HistoryIgnoresNumbers(a: seq<Record>, b: seq<Record>, key: Key)
    requires SameButNumbers(a, b)
    ensures History(a, key) == History(b, key)
  {
    if a != [] {
      HistoryIgnoresNumbers(a[..|a| - 1], b[..|b| - 1], key);
    }
  }

  lemma ObservedAlike(a: seq<Record>, b: seq<Record>, m: nat, n: nat, s: Sighting)
    requires SameButNumbers(a, b)
    ensures var x := Observation(a, m, s.key, s.hash, s.observedAt);
            var y := Observation(b, n, s.key, s.hash, s.observedAt);
            && SameButNumbers(a + [x], b + [y]) && (a + [x] == b + [y] <==> a == b && m == n)
  {
    hide ValueChanges;
    HistoryIgnoresNumbers(a, b, s.key);
    var x := Observation(a, m, s.key, s.hash, s.observedAt);
    var y := Observation(b, n, s.key, s.hash, s.observedAt);
    if a + [x] == b + [y] {
      assert (a + [x])[..|a|] == a && (b + [y])[..|b|] == b;
      assert (a + [x])[|a|] == x && (b + [y])[|b|] == y;
    }
  }

  /** A restart directly after a call that raised has lost a number. */
  ghost predicate Loses(seen: seq<Sighting>, restart: seq<bool>, r: nat)
    requires |restart| == |seen|
  {
    0 < r < |seen| && restart[r] && !seen[r - 1].sound
  }

  ghost predicate LostBy(seen: seq<Sighting>, restart: seq<bool>, n: nat)
    requires |restart| == |seen|
  {
    exists r :: 0 < r < n && Loses(seen, restart, r)
  }

  /** No record was written among the first `n` calls after a number had been lost. */
  ghost predicate NothingMisnumbered(seen: seq<Sighting>, restart: seq<bool>, n: nat)
    requires |restart| == |seen| && n <= |seen|
  {
    forall j :: 0 <= j < n && LostBy(seen, restart, j + 1) ==> !seen[j].sound
  }

  /** The files and the reopened ledger's counter after `i` calls. */
  ghost predicate AuditedSoFar(seen: seq<Sighting>, restart: seq<bool>, i: nat, kept: seq<Record>,
                               restarted: seq<Record>, counter: nat)
    requires |restart| == |seen| && i <= |seen|
  {
    && kept == Written(seen[..i]) && WrittenByLedger(restarted) && SameButNumbers(kept, restarted)
    && TopSequence(restarted) <= counter <= i && (counter == i <==> !LostBy(seen, restart, i))
    && (counter == TopSequence(restarted) <==> i == 0 || seen[i - 1].sound)
    && (kept == restarted <==> NothingMisnumbered(seen, restart, i))
  }

  /** What one call adds to the file of a ledger whose counter has reached `number`. */
  function Appended(file: seq<Record>, number: nat, s: Sighting): seq<Record> {
    if s.sound then file + [Observation(file, number, s.key, s.hash, s.observedAt)] else file
  }

  lemma AuditOneCall(seen: seq<Sighting>, restart: seq<bool>, i: nat, kept: seq<Record>, restarted: seq<Record>,
                     counter: nat)
    requires |restart| == |seen| && i < |seen| && AuditedSoFar(seen, restart, i, kept, restarted, counter)
    ensures var next := (if restart[i] then TopSequence(restarted) else counter) + 1;
            AuditedSoFar(seen, restart, i + 1, Appended(kept, i + 1, seen[i]), Appended(restarted, next, seen[i]), next)
  {
    hide WrittenByLedger, Observation, LatestOf, TopSequence, LostBy, NothingMisnumbered, SameButNumbers, Written;
    var next := (if restart[i] then TopSequence(restarted) else counter) + 1;
    OneCallMore(seen, restart, i);
    ObservedAlike(kept, restarted, i + 1, next, seen[i]);
    var y := Observation(restarted, next, seen[i].key, seen[i].hash, seen[i].observedAt);
    Numbered(restarted, next, seen[i]);
    OneMore(restarted, y);
  }

  lemma Numbered(file: seq<Record>, number: nat, s: Sighting)
    ensures var r := Observation(file, number, s.key, s.hash, s.observedAt);
            r.sequence == number && r.key == s.key && r.hash == s.hash && r.observedAt == s.observedAt
  {
  }

  /** One ledger is kept open over all calls; the other is closed and opened anew before any of them. The files
      agree in everything but the numbers, and in these exactly when no record follows a restart that came
      directly after a call that raised. */
  method RestartAudit(seen: seq<Sighting>, restart: seq<bool>) returns (kept: seq<Record>, restarted: seq<Record>)
    requires |restart| == |seen|
    ensures kept == Written(seen) && SameButNumbers(kept, restarted)
    ensures kept == restarted <==> NothingMisnumbered(seen, restart, |seen|)
  {
    hide WrittenByLedger, Observation, LatestOf, TopSequence, AuditedSoFar, SameButNumbers, NothingMisnumbered, Written;
    AuditStarts(seen, restart);
    var keptFile := new LedgerFile();
    var restartedFile := new LedgerFile();
    var ledger := new Ledger(keptFile);
    var other := new Ledger(restartedFile);
    for i := 0 to |seen|
      invariant ledger.Valid() && ledger.file == keptFile && fresh(ledger) && ledger.sequence == i
      invariant other.Valid() && other.file == restartedFile && fresh(other)
      invariant AuditedSoFar(seen, restart, i, keptFile.records, restartedFile.records, other.sequence)
    {
      AuditOneCall(seen, restart, i, keptFile.records, restartedFile.records, other.sequence);
      if restart[i] {
        other := new Ledger(restartedFile);
      }
      var x := ledger.Append(seen[i].key, seen[i].hash, seen[i].observedAt, seen[i].sound);
      var y := other.Append(seen[i].key, seen[i].hash, seen[i].observedAt, seen[i].sound);
    }
    kept, restarted := keptFile.records, restartedFile.records;
    AuditEnds(seen, restart, kept, restarted, other.sequence);
  }

  lemma AuditStarts(seen: seq<Sighting>, restart: seq<bool>)
    requires |restart| == |seen|
    ensures WrittenByLedger([]) && TopSequence([]) == 0 && AuditedSoFar(seen, restart, 0, [], [], 0)
  {
  }

  lemma AuditEnds(seen: seq<Sighting>, restart: seq<bool>, kept: seq<Record>, restarted: seq<Record>, counter: nat)
    requires |restart| == |seen| && AuditedSoFar(seen, restart, |seen|, kept, restarted, counter)
    ensures kept == Written(seen) && SameButNumbers(kept, restarted)
    ensures kept == restarted <==> NothingMisnumbered(seen, restart, |seen|)
  {
    assert seen[..|seen|] == seen;
  }

  lemma OneCallMore(seen: seq<Sighting>, restart: seq<bool>, i: nat)
    requires |restart| == |seen| && i < |seen|
    ensures LostBy(seen, restart, i + 1) <==> LostBy(seen, restart, i) || Loses(seen, restart, i)
    ensures NothingMisnumbered(seen, restart, i + 1) <==>
              NothingMisnumbered(seen, restart, i) && (LostBy(seen, restart, i + 1) ==> !seen[i].sound)
    ensures Written(seen[..i + 1])
         == if seen[i].sound
            then Written(seen[..i])
                 + [Observation(Written(seen[..i]), i + 1, seen[i].key, seen[i].hash, seen[i].observedAt)]
            else Written(seen[..i])
  {
    hide Observation;
    assert seen[..i + 1][..i] == seen[..i];
  }

  // ---------------------------------------------------------------------------------------------
  // What was known when
  // ---------------------------------------------------------------------------------------------

  predicate Visible(r: Record, key: Key, asOf: int) {
    r.key == key && r.observedAt <= asOf && r.complete
  }

  /** `a` was seen before `b`, or at the same time and recorded before it. */
  predicate Before(a: Record, b: Record) {
    a.observedAt < b.observedAt || (a.observedAt == b.observedAt && a.sequence < b.sequence)
  }

  function VisibleVersion(records: seq<Record>, key: Key, asOf: int): Option<Record> {
    if records == [] then None
    else
      var n := |records| - 1;
      var best := VisibleVersion(records[..n], key, asOf);
      if !Visible(records[n], key, asOf) then best
      else if best.None? || Before(best.value, records[n]) then Some(records[n])
      else best
  }

  /** Record `i` is of the bar, complete and observed by `asOf`; of all such records it was observed last, with the
      highest number among those observed then, and stands first if these tie too. */
  ghost predicate FirstOfLatest(records: seq<Record>, key: Key, asOf: int, i: int) {
    && 0 <= i < |records|
    && records[i].key == key && records[i].complete && records[i].observedAt <= asOf
    && forall j :: 0 <= j < |records| && records[j].key == key && records[j].complete
                   && records[j].observedAt <= asOf ==>
         || records[j].observedAt < records[i].observedAt
         || (records[j].observedAt == records[i].observedAt
             && (records[j].sequence < records[i].sequence
                 || (records[j].sequence == records[i].sequence && i <= j)))
  }

  lemma FirstOfLatestGrows(records: seq<Record>, key: Key, asOf: int, i: int)
    requires records != [] && FirstOfLatest(records[..|records| - 1], key, asOf, i)
    ensures var n := |records| - 1;
            if Visible(records[n], key, asOf) && Before(records[i], records[n])
            then FirstOfLatest(records, key, asOf, n) else FirstOfLatest(records, key, asOf, i)
  {
    var n := |records| - 1;
    assert forall j :: 0 <= j < n ==> records[..n][j] == records[j];
  }

  lemma {:induction false} NothingVisible(records: seq<Record>, key: Key, asOf: int)
    ensures VisibleVersion(records, key, asOf).None? <==>
              forall j :: 0 <= j < |records| ==> !Visible(records[j], key, asOf)
  {
    hide Visible, Before;
    if records != [] {
      NothingVisible(records[..|records| - 1], key, asOf);
    }
  }

  lemma {:induction false} LatestVisible(records: seq<Record>, key: Key, asOf: int) returns (i: int)
    requires VisibleVersion(records, key, asOf).Some?
    ensures FirstOfLatest(records, key, asOf, i)
    ensures 0 <= i < |records| && VisibleVersion(records, key, asOf).value == records[i]
  {
    hide FirstOfLatest, Visible, Before;
    var n := |records| - 1;
    var front := records[..n];
    if VisibleVersion(front, key, asOf).Some? {
      i := LatestVisible(front, key, asOf);
      FirstOfLatestGrows(records, key, asOf, i);
      if Visible(records[n], key, asOf) && Before(records[i], records[n]) {
        i := n;
      }
    } else {
      i := n;
      NothingVisible(front, key, asOf);
      OnlyVisible(records, key, asOf);
    }
  }

  /** What is visible of a bar at a time: nothing if no complete record of it had been observed by then, and
      otherwise the latest of these. */
  lemma VisibleExactly(records: seq<Record>, key: Key, asOf: int)
    ensures VisibleVersion(records, key, asOf).None? <==>
              forall j :: 0 <= j < |records| ==>
                !(records[j].key == key && records[j].complete && records[j].observedAt <= asOf)
    ensures VisibleVersion(records, key, asOf).Some? ==>
              exists i :: FirstOfLatest(records, key, asOf, i)
                && VisibleVersion(records, key, asOf).value == records[i]
  {
    hide VisibleVersion, FirstOfLatest;
    NothingVisible(records, key, asOf);
    if VisibleVersion(records, key, asOf).Some? {
      var i := LatestVisible(records, key, asOf);
    }
  }

  lemma OnlyVisible(records: seq<Record>, key: Key, asOf: int)
    requires records != [] && Visible(records[|records| - 1], key, asOf)
    requires forall j :: 0 <= j < |records| - 1 ==> !Visible(records[j], key, asOf)
    ensures FirstOfLatest(records, key, asOf, |records| - 1)
  {
  }

  method VisibleBarVersion(records: seq<Record>, key: Key, asOf: int) returns (best: Option<Record>)
    ensures best == VisibleVersion(records, key, asOf)
    ensures best.None? <==> forall i :: 0 <= i < |records| ==> !Visible(records[i], key, asOf)
    ensures best.Some? ==> best.value in records && Visible(best.value, key, asOf)
    ensures best.Some? ==>
              forall i :: 0 <= i < |records| && Visible(records[i], key, asOf) ==> !Before(best.value, records[i])
  {
    best := None;
    for i := 0 to |records|
      invariant best == VisibleVersion(records[..i], key, asOf)
      invariant best.None? <==> forall k :: 0 <= k < i ==> !Visible(records[k], key, asOf)
      invariant best.Some? ==> best.value in records && Visible(best.value, key, asOf)
      invariant best.Some? ==>
                  forall k :: 0 <= k < i && Visible(records[k], key, asOf) ==> !Before(best.value, records[k])
    {
      assert records[..i + 1][..i] == records[..i];
      if Visible(records[i], key, asOf) {
        if best.None? || Before(best.value, records[i]) {
          best := Some(records[i]);
        }
      }
    }
    assert records[..|records|] == records;
  }

  /** Records observed after `asOf` never change what was visible, wherever they stand in the file. */
  lemma {:induction false} NoLookAhead(records: seq<Record>, key: Key, asOf: int)
    ensures VisibleVersion(records, key, asOf) == VisibleVersion(KnownBy(records, asOf), key, asOf)
  {
    if records != [] {
      var n := |records| - 1;
      NoLookAhead(records[..n], key, asOf);
      var known := KnownBy(records[..n], asOf);
      assert (known + [records[n]])[..|known|] == known;
      assert known + [] == known;
    }
  }

  function KnownBy(records: seq<Record>, asOf: int): seq<Record> {
    if records == [] then []
    else
      var n := |records| - 1;
      KnownBy(records[..n], asOf) + if records[n].observedAt <= asOf then [records[n]] else []
  }
}
