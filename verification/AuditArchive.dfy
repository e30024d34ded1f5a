/** Archiving aged audit partitions: fetch, upload, record in the manifest, detach, with a failure possible at
    every step (before or after the step has taken effect) and rows still arriving while a partition is archived.

  Each table's fate in a pass is given by a function of that table alone; the safety results are about it. */
module AuditArchive {
  import opened Basics

  type Bytes = string

  datatype Row = Row(id: string, text: string)

  datatype ManifestRow = ManifestRow(year: nat, month: nat, rows: nat, objectKey: string, sha256: string)

  datatype Archived = Archived(table: string, year: nat, month: nat, rows: nat, objectKey: string, sha256: string)

  // ---------- Names ----------

  const STEM := "audit_events_"

  predicate IsDigit(c: char) { '0' <= c <= '9' }

  /** audit_events_YYYY_MM */
  predicate IsPartition(t: string) {
    && |t| == 20
    && t[..13] == STEM
    && IsDigit(t[13]) && IsDigit(t[14]) && IsDigit(t[15]) && IsDigit(t[16])
    && t[17] == '_'
    && IsDigit(t[18]) && IsDigit(t[19])
  }

  function Digit(c: char): nat
    requires IsDigit(c)
  {
    (c - '0') as nat
  }

  function Year(t: string): nat
    requires IsPartition(t)
  {
    1000 * Digit(t[13]) + 100 * Digit(t[14]) + 10 * Digit(t[15]) + Digit(t[16])
  }

  function Month(t: string): nat
    requires IsPartition(t)
  {
    10 * Digit(t[18]) + Digit(t[19])
  }

  function Take(s: string, n: nat): string { if |s| <= n then s else s[..n] }

  function ObjectKey(prefix: string, t: string, sha: string): string
    requires IsPartition(t)
  {
    prefix + ("/year=" + t[13..17] + "/month=" + t[18..20] + "/") + t + ("-" + Take(sha, 12) + ".parquet")
  }

  /** Objects of different tables never share a key, whatever the hashes. */
  lemma KeyDeterminesTable(prefix: string, t: string, u: string, sha: string, sha': string)
    requires IsPartition(t) && IsPartition(u) && ObjectKey(prefix, t, sha) == ObjectKey(prefix, u, sha')
    ensures t == u
  {
    var at := |prefix| + 20;
    KeyContainsTable(prefix, t, sha);
    KeyContainsTable(prefix, u, sha');
  }

  lemma KeyContainsTable(prefix: string, t: string, sha: string)
    requires IsPartition(t)
    ensures |ObjectKey(prefix, t, sha)| >= |prefix| + 40
    ensures ObjectKey(prefix, t, sha)[|prefix| + 20..|prefix| + 40] == t
  {
    var head := prefix + ("/year=" + t[13..17] + "/month=" + t[18..20] + "/");
    var tail := "-" + Take(sha, 12) + ".parquet";
    assert |head| == |prefix| + 20;
    assert ObjectKey(prefix, t, sha) == head + t + tail;
  }

  /** A moment, as the month it falls in and the time since that month began. */
  datatype Instant = Instant(year: int, month: MonthOfYear, sinceMonthStart: nat)

  type MonthOfYear = m: nat | 1 <= m <= 12 witness 1

  predicate StartsBefore(t: string, threshold: Instant)
    requires IsPartition(t)
  {
    || Year(t) < threshold.year
    || (Year(t) == threshold.year && Month(t) < threshold.month)
    || (Year(t) == threshold.year && Month(t) == threshold.month && threshold.sinceMonthStart > 0)
  }

  /** The calendar accepts the partition's year and month. */
  predicate IsDate(t: string)
    requires IsPartition(t)
  {
    Year(t) >= 1 && 1 <= Month(t) <= 12
  }

  // ---------- Which partitions are aged ----------

  /** Months since January of the year 0. */
  function MonthNumber(year: int, month: int): int { 12 * year + month - 1 }

  /** a is an earlier moment than b. */
  predicate Earlier(a: Instant, b: Instant) {
    var m, n := MonthNumber(a.year, a.month), MonthNumber(b.year, b.month);
    m < n || (m == n && a.sinceMonthStart < b.sinceMonthStart)
  }

  /** The first moment of a partition's month. */
  function Start(t: string): Instant
    requires IsPartition(t) && IsDate(t)
  {
    Instant(Year(t), Month(t), 0)
  }

  /** Aged are exactly the partitions whose month began before the threshold. */
  lemma AgedIff(t: string, threshold: Instant)
    requires IsPartition(t) && IsDate(t)
    ensures StartsBefore(t, threshold) <==> Earlier(Start(t), threshold)
  {
    hide IsPartition, Year, Month;
  }

  /** A partition is not aged when its month begins, is at every later moment of it, and stays so. */
  lemma AgedIsACut(t: string, d: nat, threshold: Instant, later: Instant)
    requires IsPartition(t) && IsDate(t)
    ensures !StartsBefore(t, Start(t)) && (d > 0 ==> StartsBefore(t, Start(t).(sinceMonthStart := d)))
    ensures StartsBefore(t, threshold) && Earlier(threshold, later) ==> StartsBefore(t, later)
    ensures !StartsBefore(t, later) && Earlier(threshold, later) ==> !StartsBefore(t, threshold)
  {
    hide IsPartition, Year, Month;
    AgedIff(t, threshold);
    AgedIff(t, later);
  }

  function DigitOf(n: nat): char { '0' + (n % 10) as char }

  /** The name of the partition for a year and a month. */
  function NameOf(year: nat, month: nat): string {
    STEM + [DigitOf(year / 1000), DigitOf(year / 100), DigitOf(year / 10), DigitOf(year), '_', DigitOf(month / 10), DigitOf(month)]
  }

  lemma DigitRoundTrips(n: nat)
    ensures IsDigit(DigitOf(n)) && Digit(DigitOf(n)) == n % 10
  {
  }

  /** Year and month are read back from the name, and the name is determined by them. */
  lemma NamesRoundTrip(year: nat, month: nat)
    requires year <= 9999 && month <= 99
    ensures var t := NameOf(year, month); IsPartition(t) && Year(t) == year && Month(t) == month
    ensures IsDate(NameOf(year, month)) <==> year > 0 && 1 <= month <= 12
  {
    hide DigitOf, Digit;
    DigitRoundTrips(year / 1000);
    DigitRoundTrips(year / 100);
    DigitRoundTrips(year / 10);
    DigitRoundTrips(year);
    DigitRoundTrips(month / 10);
    DigitRoundTrips(month);
    NameParts(year, month);
    Decimal(year);
    Decimal(month);
    hide NameOf;
  }

  lemma NameParts(year: nat, month: nat)
    ensures var t := NameOf(year, month);
      && |t| == 20 && t[..13] == STEM && t[17] == '_'
      && t[13] == DigitOf(year / 1000) && t[14] == DigitOf(year / 100) && t[15] == DigitOf(year / 10) && t[16] == DigitOf(year)
      && t[18] == DigitOf(month / 10) && t[19] == DigitOf(month)
  {
    hide DigitOf;
  }

  lemma Decimal(n: nat)
    requires n <= 9999
    ensures n == 1000 * (n / 1000 % 10) + 100 * (n / 100 % 10) + 10 * (n / 10 % 10) + n % 10
    ensures n <= 99 ==> n == 10 * (n / 10 % 10) + n % 10
  {
    var a, b, c := n / 10, n / 100, n / 1000;
    assert n == 10 * a + n % 10;
    assert a == 10 * b + a % 10;
    assert b == 10 * c + b % 10;
  }

  /** No other tables are partitions: every partition has the name of its year and month. */
  lemma PartitionsAreNamed(t: string)
    requires IsPartition(t)
    ensures Year(t) <= 9999 && Month(t) <= 99 && t == NameOf(Year(t), Month(t))
  {
    hide DigitOf, Digit;
    NameParts(Year(t), Month(t));
    TwoDigits(t[13], t[14]);
    TwoDigits(t[15], t[16]);
    TwoDigits(t[18], t[19]);
    Hundreds(10 * Digit(t[13]) + Digit(t[14]), 10 * Digit(t[15]) + Digit(t[16]));
    SameName(t, NameOf(Year(t), Month(t)));
  }

  lemma SameName(t: string, u: string)
    requires |t| == |u| == 20 && t[..13] == u[..13]
    requires forall k :: 13 <= k < 20 ==> t[k] == u[k]
    ensures t == u
  {
    assert forall k :: 0 <= k < 13 ==> t[k] == t[..13][k] && u[k] == u[..13][k];
  }

  lemma TwoDigits(a: char, b: char)
    requires IsDigit(a) && IsDigit(b)
    ensures var n := 10 * Digit(a) + Digit(b);
      n <= 99 && n / 10 == Digit(a) && DigitOf(n / 10) == a && DigitOf(n) == b
  {
  }

  lemma Hundreds(h: nat, l: nat)
    requires l <= 99
    ensures (100 * h + l) / 100 == h && (100 * h + l) / 1000 == h / 10
    ensures DigitOf((100 * h + l) / 10) == DigitOf(l / 10) && DigitOf(100 * h + l) == DigitOf(l)
  {
    assert (100 * h + l) / 10 == 10 * h + l / 10;
  }

  /** In June 2025 January 2024 is aged and August 2025 is not. */
  lemma AgedInJune2025()
    ensures var june, old_, new_ := Instant(2025, 6, 0), NameOf(2024, 1), NameOf(2025, 8);
      && IsPartition(old_) && StartsBefore(old_, june)
      && IsPartition(new_) && !StartsBefore(new_, june)
  {
    hide IsPartition, Year, Month, NameOf;
    NamesRoundTrip(2024, 1);
    NamesRoundTrip(2025, 8);
  }

  // ---------- One table ----------

  /** Where archiving one table fails.  "took effect" distinguishes an exception raised after the effect. */
  datatype Fault =
    | Never
    | AtCheck
    | AtFetch
    | AtUpload(tookEffect: bool)
    | AtManifest(tookEffect: bool)
    | AtDetach(tookEffect: bool)

  /** What the surroundings do to one table during a pass: a fault, and rows arriving after it has been fetched. */
  datatype Environment = Environment(fault: Fault, arrivals: seq<Row>)

  /** A manifest entry with the rows it was made from and the object stored under its key. */
  datatype Entry = Entry(row: ManifestRow, snapshot: seq<Row>, object_: Option<Bytes>)

  /** Everything about one table: its rows while attached or after detaching, and its manifest entry. */
  datatype View = View(live: Option<seq<Row>>, detached: Option<seq<Row>>, entry: Option<Entry>)

  datatype Codec = Codec(prefix: string, parquet: seq<Row> -> Bytes, sha: Bytes -> string)

  function EntryFor(c: Codec, t: string, rows: seq<Row>): Entry
    requires IsPartition(t)
  {
    var bytes := c.parquet(rows);
    Entry(ManifestRow(Year(t), Month(t), |rows|, ObjectKey(c.prefix, t, c.sha(bytes)), c.sha(bytes)), rows, Some(bytes))
  }

  function ReportOf(t: string, r: ManifestRow): Archived {
    Archived(t, r.year, r.month, r.rows, r.objectKey, r.sha256)
  }

  /** The entry records hash and count of the rows it was made from, and exactly those rows' bytes are stored. */
  ghost predicate Backed(c: Codec, t: string, e: Entry)
    requires IsPartition(t)
  {
    && e.object_ == Some(c.parquet(e.snapshot))
    && e.row.sha256 == c.sha(e.object_.value)
    && e.row.rows == |e.snapshot|
    && e.row.objectKey == ObjectKey(c.prefix, t, e.row.sha256)
    && e.row.year == Year(t) && e.row.month == Month(t)
  }

  lemma EntryIsBacked(c: Codec, t: string, rows: seq<Row>)
    requires IsPartition(t)
    ensures Backed(c, t, EntryFor(c, t, rows))
  {
  }

  /** Detached only with a backed manifest entry; the archived rows are a prefix of the table's rows. */
  ghost predicate Safe(c: Codec, t: string, v: View) {
    && (v.live.None? || v.detached.None?)
    && (v.detached.Some? ==> v.entry.Some?)
    && (v.entry.Some? ==> IsPartition(t) && Backed(c, t, v.entry.value))
    && (v.entry.Some? && v.live.Some? ==> v.entry.value.snapshot <= v.live.value)
    && (v.entry.Some? && v.detached.Some? ==> v.entry.value.snapshot <= v.detached.value)
    && (v.entry.Some? ==> v.live.Some? || v.detached.Some?)
  }

  /** What being safe comes to for a manifested table: its object holds the bytes of rows it had, under the recorded key,
      hash and row count; a detached table is always manifested, and a manifested one has lost none of those rows. */
  lemma SafeMeans(c: Codec, t: string, v: View)
    requires Safe(c, t, v)
    ensures v.detached.Some? ==> v.entry.Some? && v.live.None?
    ensures v.entry.Some? ==>
      var e := v.entry.value;
      && IsPartition(t) && e.object_ == Some(c.parquet(e.snapshot))
      && e.row == ManifestRow(Year(t), Month(t), |e.snapshot|, ObjectKey(c.prefix, t, c.sha(c.parquet(e.snapshot))), c.sha(c.parquet(e.snapshot)))
      && ((v.live.Some? && e.snapshot <= v.live.value) || (v.detached.Some? && e.snapshot <= v.detached.value))
  {
  }

  /** Every row of the table is live or in the manifested object. */
  ghost predicate NoRowLost(v: View) {
    v.detached.Some? ==> v.entry.Some? && v.detached.value == v.entry.value.snapshot
  }

  /** One table after its fetched rows have been uploaded, recorded and the table detached, as far as that got. */
  function PublishView(c: Codec, t: string, v: View, rows: seq<Row>, f: Fault): View
    requires IsPartition(t)
  {
    match f
    case AtCheck | AtFetch | AtUpload(_) | AtManifest(false) => v
    case AtManifest(true) | AtDetach(false) => v.(entry := Some(EntryFor(c, t, rows)))
    case AtDetach(true) | Never => View(None, v.live, Some(EntryFor(c, t, rows)))
  }

  /** One table after archiving it: fetch, let rows arrive, publish. */
  function ArchiveView(c: Codec, t: string, v: View, e: Environment): View
    requires IsPartition(t) && v.live.Some?
  {
    if e.fault == AtCheck || e.fault == AtFetch then v
    else PublishView(c, t, v.(live := Some(v.live.value + e.arrivals)), v.live.value, e.fault)
  }

  /** One table after a pass in which it was, or was not, reached. */
  function PassView(c: Codec, t: string, v: View, reached: bool, e: Environment): View {
    if reached && IsPartition(t) && v.live.Some? then ArchiveView(c, t, v, e) else v
  }

  /** t is the partition of a month that began before the threshold. */
  ghost predicate BeganBefore(t: string, threshold: Instant) {
    IsPartition(t) && IsDate(t) && Earlier(Start(t), threshold)
  }

  lemma EligibleIff(t: string, v: View, threshold: Instant)
    requires IsPartition(t) && IsDate(t)
    ensures Eligible(t, v, threshold) <==> v.live.Some? && v.entry.None? && BeganBefore(t, threshold)
  {
    AgedIff(t, threshold);
  }

  predicate Eligible(t: string, v: View, threshold: Instant) {
    IsPartition(t) && v.live.Some? && v.entry.None? && StartsBefore(t, threshold)
  }

  /** Whatever fails and whatever arrives, archiving keeps the table safe.  A row can only be lost by arriving
      between the fetch and the detach of a pass that does detach, and then it is lost. */
  lemma ArchivingIsSafe(c: Codec, t: string, v: View, e: Environment)
    requires IsPartition(t) && v.live.Some? && v.entry.None? && Safe(c, t, v)
    ensures Safe(c, t, ArchiveView(c, t, v, e))
    ensures NoRowLost(ArchiveView(c, t, v, e)) <==>
      ArchiveView(c, t, v, e).live.Some? || e.arrivals == []
  {
    assert v.live.value <= v.live.value + e.arrivals;
  }

  /** What can happen to one table later: a pass, which may or may not get to it, or rows arriving. */
  datatype Event = Pass(threshold: Instant, getsThere: bool, e: Environment) | Arrive(rows: seq<Row>)

  function After(c: Codec, t: string, v: View, events: seq<Event>): View {
    if events == [] then v
    else
      var w := After(c, t, v, events[..|events| - 1]);
      match events[|events| - 1]
      case Pass(threshold, getsThere, e) => PassView(c, t, w, getsThere && Eligible(t, w, threshold), e)
      case Arrive(rows) => if w.live.Some? then w.(live := Some(w.live.value + rows)) else w
  }

  /** In the manifest and still attached. */
  predicate Stranded(v: View) { v.entry.Some? && v.live.Some? }

  /** Whatever happens later, a manifest entry never changes, its table is neither attached nor detached again, and
      no row of it is touched. */
  lemma {:induction false} ManifestedIsSettled(c: Codec, t: string, v: View, events: seq<Event>)
    requires v.entry.Some?
    ensures var w := After(c, t, v, events);
      && w.entry == v.entry && w.detached == v.detached && (w.live.Some? <==> v.live.Some?)
      && (v.live.Some? ==> v.live.value <= w.live.value)
  {
    if events != [] { ManifestedIsSettled(c, t, v, events[..|events| - 1]); }
  }

  /** Archiving leaves a table attached for good, over all later passes, exactly when the manifest row was written
      and the detach did not happen. */
  lemma StrandedForeverIff(c: Codec, t: string, v: View, e: Environment)
    requires IsPartition(t) && v.live.Some? && v.entry.None?
    ensures (forall events :: Stranded(After(c, t, ArchiveView(c, t, v, e), events))) <==>
      e.fault == AtManifest(true) || e.fault == AtDetach(false)
  {
    hide After;
    var w := ArchiveView(c, t, v, e);
    if e.fault == AtManifest(true) || e.fault == AtDetach(false) {
      forall events ensures Stranded(After(c, t, w, events)) { ManifestedIsSettled(c, t, w, events); }
    } else {
      NothingLater(c, t, w);
      assert !Stranded(After(c, t, w, []));
    }
  }

  lemma NothingLater(c: Codec, t: string, v: View)
    ensures After(c, t, v, []) == v
  {
  }

  // ---------- The archiver ----------

  class IcebergArchiver {
    const codec: Codec
    var live: map<string, seq<Row>>
    var detached: map<string, seq<Row>>
    var manifest: map<string, ManifestRow>
    var objects: map<string, Bytes>
    /** rows each manifest entry was made from */
    ghost var snapshot: map<string, seq<Row>>

    ghost function ViewOf(t: string): View
      reads this
    {
      View(if t in live then Some(live[t]) else None,
           if t in detached then Some(detached[t]) else None,
           if t in manifest && t in snapshot then
             Some(Entry(manifest[t], snapshot[t],
                        if manifest[t].objectKey in objects then Some(objects[manifest[t].objectKey]) else None))
           else None)
    }

    ghost predicate Valid()
      reads this
    {
      && manifest.Keys == snapshot.Keys
      && forall t :: Safe(codec, t, ViewOf(t))
    }

    constructor (codec: Codec, partitions: map<string, seq<Row>>)
      ensures Valid() && live == partitions && detached == map[] && manifest == map[] && objects == map[]
      ensures this.codec == codec
    {
      this.codec := codec;
      live, detached, manifest, objects, snapshot := partitions, map[], map[], map[], map[];
    }

    /** The views of all tables. */
    ghost function Views(): imap<string, View>
      reads this
    {
      imap t: string | true :: ViewOf(t)
    }

    lemma LookUpAll()
      ensures forall t :: t in Views() && Views()[t] == ViewOf(t)
      ensures forall t :: ViewOf(t).live.Some? <==> t in live
    {
    }

    lemma LookUp(t: string)
      requires Valid()
      ensures t in Views() && Views()[t] == ViewOf(t)
      ensures ViewOf(t).live == if t in live then Some(live[t]) else None
      ensures ViewOf(t).entry.Some? <==> t in manifest
    {
    }

    /** Rows written to an attached partition between passes. */
    method Insert(t: string, rows: seq<Row>)
      requires Valid() && t in live
      modifies this`live
      ensures Valid() && live == old(live)[t := old(live[t]) + rows]
      ensures Views() == old(Views())[t := old(ViewOf(t)).(live := Some(old(live[t]) + rows))]
    {
      hide Safe;
      ghost var v := ViewOf(t);
      InsertIsSafe(codec, t, v, rows);
      live := live[t := live[t] + rows];
      assert ViewOf(t) == v.(live := Some(v.live.value + rows));
      assert forall u :: u != t ==> ViewOf(u) == old(ViewOf(u));
    }

    static lemma InsertIsSafe(c: Codec, t: string, v: View, rows: seq<Row>)
      requires Safe(c, t, v) && v.live.Some?
      ensures Safe(c, t, v.(live := Some(v.live.value + rows)))
    {
    }

    static lemma RecordIsSafe(c: Codec, t: string, v: View, e: Entry)
      requires Safe(c, t, v) && v.live.Some? && e.snapshot <= v.live.value && IsPartition(t) && Backed(c, t, e)
      ensures Safe(c, t, v.(entry := Some(e)))
    {
    }

    method Upload(t: string, sha: string, bytes: Bytes) returns (key: string)
      requires Valid() && IsPartition(t) && t !in manifest
      modifies this`objects
      ensures Valid()
      ensures key == ObjectKey(codec.prefix, t, sha) && key in objects && objects[key] == bytes
      ensures Views() == old(Views())
    {
      key := ObjectKey(codec.prefix, t, sha);
      forall u | u in manifest ensures manifest[u].objectKey != key {
        assert Safe(codec, u, ViewOf(u));
        if manifest[u].objectKey == key { KeyDeterminesTable(codec.prefix, u, t, manifest[u].sha256, sha); }
      }
      objects := objects[key := bytes];
      assert forall u :: ViewOf(u) == old(ViewOf(u));
    }

    method Record(t: string, row: ManifestRow, ghost rows: seq<Row>)
      requires Valid() && IsPartition(t) && t in live && t !in manifest && rows <= live[t]
      requires row.objectKey in objects && Backed(codec, t, Entry(row, rows, Some(objects[row.objectKey])))
      modifies this`manifest, this`snapshot
      ensures Valid() && manifest == old(manifest)[t := row]
      ensures Views() == old(Views())[t := old(ViewOf(t)).(entry := Some(Entry(row, rows, Some(objects[row.objectKey]))))]
    {
      hide Safe, Backed, IsPartition;
      ghost var v, e := ViewOf(t), Entry(row, rows, Some(objects[row.objectKey]));
      RecordIsSafe(codec, t, v, e);
      manifest := manifest[t := row];
      snapshot := snapshot[t := rows];
      assert ViewOf(t) == v.(entry := Some(e));
      assert forall u :: u != t ==> ViewOf(u) == old(ViewOf(u));
    }

    method Detach(t: string)
      requires Valid() && t in live && t in manifest
      modifies this`live, this`detached
      ensures Valid()
      ensures Views() == old(Views())[t := old(ViewOf(t)).(live := None, detached := Some(old(live[t])))]
    {
      assert Safe(codec, t, ViewOf(t));
      detached := detached[t := live[t]];
      live := live - {t};
      assert Safe(codec, t, ViewOf(t));
      assert forall u :: u != t ==> ViewOf(u) == old(ViewOf(u));
    }

    /** Manifest entry, then detach. */
    method Commit(t: string, row: ManifestRow, ghost rows: seq<Row>, f: Fault) returns (done: bool)
      requires Valid() && IsPartition(t) && t in live && t !in manifest && rows <= live[t]
      requires row == EntryFor(codec, t, rows).row && row.objectKey in objects && objects[row.objectKey] == codec.parquet(rows)
      requires f.AtManifest? || f.AtDetach? || f == Never
      modifies this
      ensures Valid()
      ensures Views() == old(Views())[t := PublishView(codec, t, old(ViewOf(t)), rows, f)]
      ensures done <==> f == Never
      ensures done ==> t in manifest && manifest[t] == row
    {
      hide Valid, ViewOf, Views, IsPartition, ObjectKey, Year, Month, Backed;
      EntryIsBacked(codec, t, rows);
      LookUp(t);
      if f == AtManifest(false) { Unchanged(t); return false; }
      Record(t, row, rows);
      LookUp(t);
      if f.AtManifest? || f == AtDetach(false) { return false; }
      Detach(t);
      done := f == Never;
    }

    lemma Unchanged(t: string)
      ensures Views() == Views()[t := ViewOf(t)]
    {
    }

    /** Archive one table.  None stands for the exception the pass catches and logs. */
    method ArchiveOne(t: string, e: Environment) returns (r: Option<Archived>)
      requires Valid() && IsPartition(t) && t in live && t !in manifest && e.fault != AtCheck
      modifies this
      ensures Valid()
      ensures Views() == old(Views())[t := ArchiveView(codec, t, old(ViewOf(t)), e)]
      ensures r.Some? <==> e.fault == Never
      ensures r.Some? ==> t in manifest && r.value == ReportOf(t, manifest[t])
      ensures r.Some? ==> r.value == ReportFor(codec, t, old(live[t]))
    {
      hide Valid, ViewOf, Views, IsPartition, ObjectKey, Year, Month, Backed;
      LookUp(t);
      if e.fault == AtFetch { Unchanged(t); return None; }
      var rows := live[t];
      Insert(t, e.arrivals);
      LookUp(t);
      var bytes := codec.parquet(rows);
      var sha := codec.sha(bytes);
      if e.fault == AtUpload(false) { return None; }
      var key := Upload(t, sha, bytes);
      LookUp(t);
      if e.fault.AtUpload? { return None; }
      var row := ManifestRow(Year(t), Month(t), |rows|, key, sha);
      var done := Commit(t, row, rows, e.fault);
      r := if done then Some(ReportOf(t, row)) else None;
    }

    /** One pass.  It stops early (None) if a manifest check fails or a partition is named after a month that does
        not exist; reached is the set of tables it tried to archive. */
    method ArchiveAgedPartitions(threshold: Instant, env: string -> Environment)
      returns (out: Option<seq<Archived>>, ghost reached: set<string>)
      requires Valid()
      modifies this
      ensures Valid() && PassDone(codec, old(Views()), Views(), reached, env)
      ensures forall t :: t in reached ==> Eligible(t, old(ViewOf(t)), threshold) && BeganBefore(t, threshold)
      ensures out.Some? ==> Reports(codec, old(Views()), out.value, reached, env)
      ensures out.Some? ==> forall t :: Eligible(t, old(ViewOf(t)), threshold) ==> t in reached
      ensures out.Some? ==> forall t ::
        BeganBefore(t, threshold) && old(ViewOf(t)).live.Some? && old(ViewOf(t)).entry.None? ==> t in reached
      ensures out.None? ==> exists t :: t in old(live) && IsPartition(t) && (!IsDate(t) || env(t).fault == AtCheck)
    {
      hide Safe, ArchiveView, PassDone, Valid, ViewOf, Views, IsPartition, Reports, IsDate, StartsBefore, Earlier;
      ghost var before := Views();
      LookUpAll();
      reached := {};
      var archived: seq<Archived> := [];
      var todo := live.Keys;
      NothingDone(codec, before, env);
      NothingReported(codec, before, env);
      while todo != {}
        invariant Valid() && PassDone(codec, before, Views(), reached, env) && Reports(codec, before, archived, reached, env)
        invariant todo <= old(live).Keys && reached !! todo
        invariant forall t :: t in reached ==> Eligible(t, before[t], threshold) && BeganBefore(t, threshold)
        invariant forall t :: t in old(live) && t !in todo && Eligible(t, before[t], threshold) ==> t in reached
        decreases |todo|
      {
        var t :| t in todo;
        todo := todo - {t};
        LookUp(t);
        if !IsPartition(t) { continue; }
        if !IsDate(t) { return None, reached; }
        AgedIff(t, threshold);
        if !StartsBefore(t, threshold) { continue; }
        if env(t).fault == AtCheck { return None, reached; }
        Untouched(codec, before, Views(), reached, env, t);
        assert ViewOf(t) == before[t];
        if t in manifest { continue; }
        ghost var now := Views();
        var r := ArchiveOne(t, env(t));
        OneMore(codec, before, now, reached, env, t);
        ReportsOneMore(codec, before, archived, reached, env, t, r);
        reached := reached + {t};
        if r.Some? {
          archived := archived + [r.value];
        }
      }
      forall t | BeganBefore(t, threshold) && before[t].live.Some? && before[t].entry.None?
        ensures Eligible(t, before[t], threshold)
      {
        EligibleIff(t, before[t], threshold);
      }
      return Some(archived), reached;
    }
  }

  /** Every table looks as a pass that reached the given tables leaves it. */
  ghost predicate PassDone(c: Codec, before: imap<string, View>, after: imap<string, View>, reached: set<string>,
                           env: string -> Environment)
  {
    forall t :: t in before && t in after && after[t] == PassView(c, t, before[t], t in reached, env(t))
  }

  /** What a pass means for one table: a manifested table stays exactly as it is, attached or not; and a row is
      lost exactly when it arrived between fetch and detach of a table the pass detached. */
  lemma PassOutcome(c: Codec, before: imap<string, View>, after: imap<string, View>, reached: set<string>,
                    env: string -> Environment, threshold: Instant, t: string)
    requires PassDone(c, before, after, reached, env)
    requires t in before && Safe(c, t, before[t]) && (t in reached ==> Eligible(t, before[t], threshold))
    ensures t in after && Safe(c, t, after[t])
    ensures before[t].entry.Some? ==> after[t] == before[t]
    ensures NoRowLost(before[t]) ==>
      (NoRowLost(after[t]) <==> !(t in reached && after[t].detached.Some? && env(t).arrivals != []))
  {
    hide Backed, EntryFor;
    assert after[t] == PassView(c, t, before[t], t in reached, env(t));
    if t in reached {
      ArchivingIsSafe(c, t, before[t], env(t));
    }
  }

  /** The report of a table archived without a fault: year and month of its name, how many rows it had, and where their
      bytes are with which hash. */
  function ReportFor(c: Codec, t: string, rows: seq<Row>): Archived
    requires IsPartition(t)
  {
    var sha := c.sha(c.parquet(rows));
    Archived(t, Year(t), Month(t), |rows|, ObjectKey(c.prefix, t, sha), sha)
  }

  /** Exactly the reached tables that met no fault are reported, each once and with what it held before the pass. */
  ghost predicate Reports(c: Codec, before: imap<string, View>, out: seq<Archived>, reached: set<string>,
                          env: string -> Environment)
  {
    && (forall t :: t in reached && env(t).fault == Never <==> exists a :: a in out && a.table == t)
    && (forall i, j :: 0 <= i < j < |out| ==> out[i].table != out[j].table)
    && (forall a :: a in out ==>
          && IsPartition(a.table) && a.table in before && before[a.table].live.Some?
          && a == ReportFor(c, a.table, before[a.table].live.value))
  }

  lemma NothingReported(c: Codec, before: imap<string, View>, env: string -> Environment)
    ensures Reports(c, before, [], {}, env)
  {
  }

  lemma ReportsOneMore(c: Codec, before: imap<string, View>, out: seq<Archived>, reached: set<string>,
                       env: string -> Environment, t: string, r: Option<Archived>)
    requires Reports(c, before, out, reached, env) && t !in reached && (r.Some? <==> env(t).fault == Never)
    requires r.Some? ==>
      IsPartition(t) && t in before && before[t].live.Some? && r.value == ReportFor(c, t, before[t].live.value)
    ensures Reports(c, before, if r.Some? then out + [r.value] else out, reached + {t}, env)
  {
    hide IsPartition, ObjectKey, Year, Month;
    var next := if r.Some? then out + [r.value] else out;
    forall a ensures a in next <==> a in out || (r.Some? && a == r.value) {}
    forall i | 0 <= i < |out| ensures out[i].table != t { assert out[i] in out; }
    forall u ensures u in reached + {t} && env(u).fault == Never <==> exists a :: a in next && a.table == u {
      if r.Some? && u == t { assert r.value in next; }
      if a :| a in out && a.table == u { assert a in next; }
    }
  }

  lemma NothingDone(c: Codec, before: imap<string, View>, env: string -> Environment)
    requires forall t :: t in before
    ensures PassDone(c, before, before, {}, env)
  {
  }

  lemma Untouched(c: Codec, before: imap<string, View>, after: imap<string, View>, reached: set<string>,
                  env: string -> Environment, t: string)
    requires PassDone(c, before, after, reached, env) && t !in reached
    ensures t in before && t in after && after[t] == before[t]
  {
  }

  lemma OneMore(c: Codec, before: imap<string, View>, after: imap<string, View>, reached: set<string>,
                env: string -> Environment, t: string)
    requires PassDone(c, before, after, reached, env) && t !in reached
    requires t in before && IsPartition(t) && before[t].live.Some?
    ensures PassDone(c, before, after[t := ArchiveView(c, t, before[t], env(t))], reached + {t}, env)
  {
  }
}
