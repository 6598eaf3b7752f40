/** How crowded each booth is: the check-ins of a trailing time window are
    counted per booth and the count is classified against two thresholds.
    `now` is a parameter; the scheduled broadcast of the result is not
    modelled. */
module CrowdStatusService {
  import opened Common
  import opened Domain
  import opened Strings
  import opened Repositories

  /** The `crowd.*` configuration properties. */
  datatype CrowdConfig = CrowdConfig(mediumThreshold: int, highThreshold: int, windowMinutes: int)

  /** The defaults when no property is set: medium 10, high 25, a 30-minute
      window. */
  const DefaultConfig: CrowdConfig := CrowdConfig(10, 25, 30)

  const NanosPerMinute: int := 60_000_000_000

  /** One booth's entry of the broadcast. */
  datatype BoothCrowdStatus = BoothCrowdStatus(boothId: Id, code: string, level: CrowdLevel, count: int)

  /** A crowd level's rank, LOW < MEDIUM < HIGH. */
  function Severity(level: CrowdLevel): (n: nat)
    ensures n <= 2
    ensures n == 0 <==> level == LOW
    ensures n == 2 <==> level == HIGH
  {
    match level
    case LOW => 0
    case MEDIUM => 1
    case HIGH => 2
  }

  /** `determineCrowdLevel`: the high threshold is tested first. */
  function DetermineCrowdLevel(count: int, cfg: CrowdConfig): (level: CrowdLevel)
  {
    if count >= cfg.highThreshold then HIGH
    else if count >= cfg.mediumThreshold then MEDIUM
    else LOW
  }

  /** HIGH exactly at or above the high threshold, MEDIUM exactly from the
      medium threshold up to below the high one, LOW otherwise. */
  lemma CrowdLevelBands(count: int, cfg: CrowdConfig)
    ensures DetermineCrowdLevel(count, cfg) == HIGH <==> count >= cfg.highThreshold
    ensures DetermineCrowdLevel(count, cfg) == MEDIUM <==>
      cfg.mediumThreshold <= count < cfg.highThreshold
    ensures DetermineCrowdLevel(count, cfg) == LOW <==>
      count < cfg.mediumThreshold && count < cfg.highThreshold
  {
  }

  /** With ordered thresholds, more check-ins never mean a lower level. */
  lemma CrowdLevelMonotone(c1: int, c2: int, cfg: CrowdConfig)
    requires cfg.mediumThreshold <= cfg.highThreshold
    requires c1 <= c2
    ensures Severity(DetermineCrowdLevel(c1, cfg)) <= Severity(DetermineCrowdLevel(c2, cfg))
  {
  }

  /** The level of the default configuration at a few counts. */
  lemma DefaultThresholds()
    ensures DetermineCrowdLevel(9, DefaultConfig) == LOW
    ensures DetermineCrowdLevel(10, DefaultConfig) == MEDIUM
    ensures DetermineCrowdLevel(24, DefaultConfig) == MEDIUM
    ensures DetermineCrowdLevel(25, DefaultConfig) == HIGH
    ensures DefaultConfig.windowMinutes * NanosPerMinute == 1_800_000_000_000
  {
  }

  /** `now.minus(windowMinutes, MINUTES)`. */
  function WindowStart(now: Instant, cfg: CrowdConfig): (since: Instant)
    ensures cfg.windowMinutes >= 0 ==> since <= now
  {
    now - cfg.windowMinutes * NanosPerMinute
  }

  /** The per-booth counts of the current window (`getCrowdDataMap`, and the
      `countMap` of `computeCurrentStatus`). */
  function CrowdDataMap(cs: map<Id, CheckIn>, now: Instant, cfg: CrowdConfig): (r: map<Id, nat>)
    ensures forall b :: b in r ==> r[b] == |RecentCheckIns(cs, b, WindowStart(now, cfg))|
  {
    CountByBoothSince(cs, WindowStart(now, cfg))
  }

  /** `countMap[id] ?: 0`: a booth absent from the map has no check-in in the
      window, so its count is the number of its recent check-ins either way. */
  function CrowdCount(cs: map<Id, CheckIn>, booth: Id, now: Instant, cfg: CrowdConfig): (n: nat)
    ensures n == |RecentCheckIns(cs, booth, WindowStart(now, cfg))|
  {
    var counts := CrowdDataMap(cs, now, cfg);
    if booth in counts then counts[booth]
    else
      NoRecentCheckIns(cs, booth, WindowStart(now, cfg));
      0
  }

  lemma NoRecentCheckIns(cs: map<Id, CheckIn>, booth: Id, since: Instant)
    requires !exists k :: k in cs && cs[k].booth == booth && cs[k].checkedInAt >= since
    ensures RecentCheckIns(cs, booth, since) == {}
  {
  }

  /** One booth's entry, built from its row. */
  function StatusOf(row: Row<Booth>, cs: map<Id, CheckIn>, now: Instant, cfg: CrowdConfig): (e: BoothCrowdStatus)
    ensures e.boothId == row.0 && e.code == row.1.code
    ensures e.count == |RecentCheckIns(cs, row.0, WindowStart(now, cfg))|
    ensures e.level == DetermineCrowdLevel(e.count, cfg)
  {
    var count := CrowdCount(cs, row.0, now, cfg);
    BoothCrowdStatus(row.0, row.1.code, DetermineCrowdLevel(count, cfg), count)
  }

  /** `activeBooths.map { … }`: the entry of each booth, in order. */
  function Statuses(active: seq<Row<Booth>>, cs: map<Id, CheckIn>, now: Instant, cfg: CrowdConfig)
    : (r: seq<BoothCrowdStatus>)
    ensures |r| == |active|
    ensures forall i :: 0 <= i < |r| ==> r[i].boothId == active[i].0 && r[i].code == active[i].1.code
    ensures forall i :: 0 <= i < |r| ==>
      r[i].count == |RecentCheckIns(cs, r[i].boothId, WindowStart(now, cfg))| &&
      r[i].level == DetermineCrowdLevel(r[i].count, cfg)
  {
    if active == [] then [] else [StatusOf(active[0], cs, now, cfg)] + Statuses(active[1..], cs, now, cfg)
  }

  /** `computeCurrentStatus`: entry `i` reports the `i`-th active booth by
      ascending code, with its count over the window and the level of that
      count. */
  function ComputeCurrentStatus(booths: map<Id, Booth>, cs: map<Id, CheckIn>, now: Instant, cfg: CrowdConfig)
    : (r: seq<BoothCrowdStatus>)
    ensures |r| == |ActiveBoothsByCode(booths)|
    ensures forall i :: 0 <= i < |r| ==>
      r[i].boothId == ActiveBoothsByCode(booths)[i].0 && r[i].code == ActiveBoothsByCode(booths)[i].1.code
    ensures forall i :: 0 <= i < |r| ==>
      r[i].count == |RecentCheckIns(cs, r[i].boothId, WindowStart(now, cfg))| &&
      r[i].level == DetermineCrowdLevel(r[i].count, cfg)
  {
    Statuses(ActiveBoothsByCode(booths), cs, now, cfg)
  }

  /** The status list names only active booths, each with its current
      code. */
  lemma CurrentStatusOnlyActive(booths: map<Id, Booth>, cs: map<Id, CheckIn>, now: Instant, cfg: CrowdConfig)
    ensures var r := ComputeCurrentStatus(booths, cs, now, cfg);
      forall i :: 0 <= i < |r| ==>
        r[i].boothId in booths && booths[r[i].boothId].isActive && r[i].code == booths[r[i].boothId].code
  {
    var r := ComputeCurrentStatus(booths, cs, now, cfg);
    var active := ActiveBoothsByCode(booths);
    forall i | 0 <= i < |r|
      ensures r[i].boothId in booths && booths[r[i].boothId].isActive && r[i].code == booths[r[i].boothId].code
    {
      assert r[i].boothId == active[i].0 && r[i].code == active[i].1.code;
    }
  }

  /** No booth has two entries. */
  lemma CurrentStatusOnce(booths: map<Id, Booth>, cs: map<Id, CheckIn>, now: Instant, cfg: CrowdConfig)
    ensures var r := ComputeCurrentStatus(booths, cs, now, cfg);
      forall i, j :: 0 <= i < j < |r| ==> r[i].boothId != r[j].boothId
  {
    var r := ComputeCurrentStatus(booths, cs, now, cfg);
    var active := ActiveBoothsByCode(booths);
    forall i, j | 0 <= i < j < |r|
      ensures r[i].boothId != r[j].boothId
    {
      assert r[i].boothId == active[i].0 && r[j].boothId == active[j].0;
    }
  }

  /** The entries come in ascending code order. */
  lemma CurrentStatusByCode(booths: map<Id, Booth>, cs: map<Id, CheckIn>, now: Instant, cfg: CrowdConfig)
    ensures var r := ComputeCurrentStatus(booths, cs, now, cfg);
      forall i, j :: 0 <= i < j < |r| ==> LexLe(r[i].code, r[j].code)
  {
    var r := ComputeCurrentStatus(booths, cs, now, cfg);
    var active := ActiveBoothsByCode(booths);
    forall i, j | 0 <= i < j < |r|
      ensures LexLe(r[i].code, r[j].code)
    {
      assert r[i].code == active[i].1.code && r[j].code == active[j].1.code;
    }
  }

  /** Every active booth has an entry in the status list. */
  lemma CurrentStatusCoversActiveBooths(booths: map<Id, Booth>, cs: map<Id, CheckIn>, now: Instant, cfg: CrowdConfig)
    ensures var r := ComputeCurrentStatus(booths, cs, now, cfg);
      forall b :: b in booths && booths[b].isActive ==> exists i :: 0 <= i < |r| && r[i].boothId == b
  {
    var r := ComputeCurrentStatus(booths, cs, now, cfg);
    var active := ActiveBoothsByCode(booths);
    forall b | b in booths && booths[b].isActive
      ensures exists i :: 0 <= i < |r| && r[i].boothId == b
    {
      var e: Row<Booth> := (b, booths[b]);
      assert e in active;
      var i :| 0 <= i < |active| && active[i] == e;
      assert r[i].boothId == b;
    }
  }

  /** An active booth without a check-in in the window is reported with count
      0, and at level LOW whenever both thresholds are positive (as with the
      defaults). */
  lemma QuietBoothIsLow(booths: map<Id, Booth>, cs: map<Id, CheckIn>, now: Instant, cfg: CrowdConfig, i: int)
    requires 0 <= i < |ComputeCurrentStatus(booths, cs, now, cfg)|
    requires forall k :: k in cs && cs[k].booth == ComputeCurrentStatus(booths, cs, now, cfg)[i].boothId ==>
      cs[k].checkedInAt < WindowStart(now, cfg)
    ensures ComputeCurrentStatus(booths, cs, now, cfg)[i].count == 0
    ensures cfg.mediumThreshold > 0 && cfg.highThreshold > 0 ==>
      ComputeCurrentStatus(booths, cs, now, cfg)[i].level == LOW
  {
    var e := ComputeCurrentStatus(booths, cs, now, cfg)[i];
    NoRecentCheckIns(cs, e.boothId, WindowStart(now, cfg));
  }
}
