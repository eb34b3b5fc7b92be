/**
 * The worker's D1 state that cloudflare-api/src/index.js changes in place:
 * the `rate_limits` rows that `checkRateLimit` reads and rewrites, the
 * `downloads` log and the `download_count` statistic of `trackDownload`, the
 * `inquiries` that `handleInquiry` inserts, and the blocked list that
 * `getBlockedIPs` shows and `unblockIP` clears.
 *
 * Times are milliseconds since the epoch. The worker writes a time as the
 * text of `new Date(now + 9 h).toISOString()` cut to the second and reads it
 * back with `new Date(text)`, which takes the text as UTC: the instant read
 * back is `Stamp(now, offset)` with `offset` the 9 hours of `KstOffsetMs`.
 */
module RateLimit {
  import opened Wrappers
  import opened Text
  import WorkerApi

  /** `RATE_LIMIT`. */
  const DownloadMax: int := 10
  const DownloadWindow: int := 3600
  const BlockDuration: int := 86400
  const InquiryMax: int := 5
  const InquiryWindow: int := 3600

  /** `9 * 60 * 60 * 1000`: the shift of every stored time. */
  const KstOffsetMs: nat := 9 * 60 * 60 * 1000

  /** The instant a time written at `now` reads back as: shifted by `offset`, cut to the second. */
  function Stamp(now: nat, offset: nat): (t: nat)
    ensures now + offset - 1000 < t <= now + offset
  {
    ((now + offset) / 1000) * 1000
  }

  /** A `rate_limits` row: the count in the window, the last update and the end of a block (`None` for NULL). */
  datatype LimitRow = LimitRow(count: int, updatedAt: int, blockedUntil: Option<int>)

  /** What `checkRateLimit` answers: allowed with the new count, or refused until the end of the block. */
  datatype RateCheck = Allowed(count: int) | Refused(until: int)

  /** `${type}:${ip}`: the row key. */
  function LimitKey(kind: string, ip: string): string { kind + ":" + ip }

  /** A block is in force at `now`. */
  predicate BlockedAt(r: LimitRow, now: int)
  {
    r.blockedUntil.Some? && now < r.blockedUntil.value
  }

  /**
   * `checkRateLimit` on one key: the row afterwards and the answer, given
   * the row before (`None` when there is none).
   */
  function CheckStep(row: Option<LimitRow>, maxCount: int, windowSec: int, now: nat, offset: nat): (LimitRow, RateCheck)
  {
    if row.Some? && BlockedAt(row.value, now) then (row.value, Refused(row.value.blockedUntil.value))
    else if row.Some? && now - row.value.updatedAt < windowSec * 1000 then
      var r := row.value;
      if r.count >= maxCount then
        var until := Stamp(now + BlockDuration * 1000, offset);
        (r.(blockedUntil := Some(until), updatedAt := Stamp(now, offset)), Refused(until))
      else (r.(count := r.count + 1, updatedAt := Stamp(now, offset)), Allowed(r.count + 1))
    else (LimitRow(1, Stamp(now, offset), None), Allowed(1))
  }

  /** A key seen for the first time is inserted with count 1 and allowed. */
  lemma CheckNew(maxCount: int, windowSec: int, now: nat, offset: nat)
    ensures CheckStep(None, maxCount, windowSec, now, offset) == (LimitRow(1, Stamp(now, offset), None), Allowed(1))
  {
  }

  /** While a block is in force the request is refused with its end, and the row is left as it is. */
  lemma CheckWhileBlocked(r: LimitRow, maxCount: int, windowSec: int, now: nat, offset: nat)
    requires BlockedAt(r, now)
    ensures CheckStep(Some(r), maxCount, windowSec, now, offset) == (r, Refused(r.blockedUntil.value))
  {
  }

  /**
   * Inside the window a full count starts a block of `BLOCK_DURATION` and
   * refuses; a count below the limit is incremented and allowed. Once the
   * window has passed the count restarts at 1, any block is cleared, and the
   * request is allowed.
   */
  lemma CheckTransitions(r: LimitRow, maxCount: int, windowSec: int, now: nat, offset: nat)
    requires !BlockedAt(r, now)
    ensures var (r', res) := CheckStep(Some(r), maxCount, windowSec, now, offset);
      && (now - r.updatedAt < windowSec * 1000 && r.count >= maxCount ==>
          && res.Refused? && r'.blockedUntil == Some(res.until) && r'.count == r.count
          && now + BlockDuration * 1000 + offset - 1000 < res.until <= now + BlockDuration * 1000 + offset)
      && (now - r.updatedAt < windowSec * 1000 && r.count < maxCount ==>
          res == Allowed(r.count + 1) && r'.count == r.count + 1 && r'.blockedUntil == r.blockedUntil)
      && (now - r.updatedAt >= windowSec * 1000 ==>
          res == Allowed(1) && r' == LimitRow(1, Stamp(now, offset), None))
      && r'.updatedAt == Stamp(now, offset)
  {
  }

  /** Stored counts are at least 1. */
  predicate Sane(r: LimitRow) { r.count >= 1 }

  /**
   * Counts stay at least 1, and an allowed request never carries a count
   * above the limit: the count grows only while it is below it.
   */
  lemma {:induction false} CheckBounded(row: Option<LimitRow>, maxCount: int, windowSec: int, now: nat, offset: nat)
    requires row.Some? ==> Sane(row.value)
    requires maxCount >= 1
    ensures var (r', res) := CheckStep(row, maxCount, windowSec, now, offset);
      && Sane(r')
      && (res.Allowed? ==> 1 <= res.count <= maxCount && res.count == r'.count)
  {
  }

  /**
   * A block holds: after a request refused at `now` and started a block,
   * every later request before the block ends is refused with the same end
   * and changes nothing.
   */
  lemma {:induction false} BlockHolds(r: LimitRow, maxCount: int, windowSec: int, now: nat, later: nat, offset: nat)
    requires !BlockedAt(r, now) && now - r.updatedAt < windowSec * 1000 && r.count >= maxCount
    requires now <= later < CheckStep(Some(r), maxCount, windowSec, now, offset).1.until
    ensures var (r', res) := CheckStep(Some(r), maxCount, windowSec, now, offset);
      CheckStep(Some(r'), maxCount, windowSec, later, offset) == (r', res)
  {
    CheckTransitions(r, maxCount, windowSec, now, offset);
  }

  /**
   * As written, with the 9-hour shift: a key that used its 10 downloads at
   * time 0 is still inside its one-hour window an hour later, and is blocked
   * instead of starting a new window.
   */
  lemma ShiftedWindowStillOpen()
    ensures var r := LimitRow(DownloadMax, Stamp(0, KstOffsetMs), None);
      CheckStep(Some(r), DownloadMax, DownloadWindow, DownloadWindow * 1000, KstOffsetMs).1.Refused?
  {
  }

  /**
   * As written, the window of a row last updated at `t` lasts ten hours and
   * a block 33 hours: the stored times run 9 hours ahead of the clock they
   * are compared with.
   */
  lemma ShiftedSpans(t: nat, now: nat)
    requires t <= now < t + 9 * 60 * 60 * 1000 + DownloadWindow * 1000 - 1000
    ensures now - Stamp(t, KstOffsetMs) < DownloadWindow * 1000
    ensures Stamp(now + BlockDuration * 1000, KstOffsetMs) > now + 33 * 60 * 60 * 1000 - 1000
  {
  }

  /**
   * Without the shift (`offset` 0): a request at least one window after the
   * last update of an unblocked row starts a new window with count 1, and a
   * block ends within `BLOCK_DURATION`.
   */
  lemma UnshiftedWindowExact(r: LimitRow, t: nat, maxCount: int, windowSec: int, now: nat)
    requires r.updatedAt == Stamp(t, 0) && !BlockedAt(r, now)
    requires now >= t + windowSec * 1000
    ensures CheckStep(Some(r), maxCount, windowSec, now, 0) == (LimitRow(1, Stamp(now, 0), None), Allowed(1))
    ensures now + BlockDuration * 1000 - 1000 < Stamp(now + BlockDuration * 1000, 0) <= now + BlockDuration * 1000
  {
  }

  /** `r.ip.replace(/^(download|inquiry):/, '')`. */
  function StripKind(key: string): string
  {
    if StartsWith(key, "download:") then key[9..]
    else if StartsWith(key, "inquiry:") then key[8..]
    else key
  }

  /** The prefix strip undoes `LimitKey` for both kinds. */
  lemma StripKindOfKey(kind: string, ip: string)
    requires kind == "download" || kind == "inquiry"
    ensures StripKind(LimitKey(kind, ip)) == ip
  {
    var key := LimitKey(kind, ip);
    if kind == "download" {
      assert key[..9] == "download:";
      assert key[9..] == ip;
    } else {
      assert key[..8] == "inquiry:";
      assert !StartsWith(key, "download:") by {
        assert key[0] == 'i';
      }
      assert key[8..] == ip;
    }
  }

  /** One entry of the blocked list. */
  datatype BlockedEntry = BlockedEntry(ip: string, count: int, blockedUntil: int, updatedAt: int)

  /**
   * `getBlockedIPs`: the rows whose block ends after `datetime('now')` (the
   * current UTC second), with the key's kind prefix stripped.
   */
  function BlockedList(rows: map<string, LimitRow>, now: nat): set<BlockedEntry>
  {
    set k | k in rows && rows[k].blockedUntil.Some? && rows[k].blockedUntil.value > Stamp(now, 0)
      :: BlockedEntry(StripKind(k), rows[k].count, rows[k].blockedUntil.value, rows[k].updatedAt)
  }

  /** An address is listed exactly when one of its rows has a block ending after the current second. */
  lemma BlockedListSpec(rows: map<string, LimitRow>, now: nat, kind: string, ip: string)
    requires kind == "download" || kind == "inquiry"
    ensures forall e :: e in BlockedList(rows, now) ==>
      exists k :: k in rows && StripKind(k) == e.ip && rows[k].blockedUntil == Some(e.blockedUntil) && e.blockedUntil > Stamp(now, 0)
    ensures var k := LimitKey(kind, ip);
      k in rows && rows[k].blockedUntil.Some? && rows[k].blockedUntil.value > Stamp(now, 0) ==>
        BlockedEntry(ip, rows[k].count, rows[k].blockedUntil.value, rows[k].updatedAt) in BlockedList(rows, now)
  {
    StripKindOfKey(kind, ip);
  }

  /** The row with its block cleared. */
  function Unblocked(r: LimitRow): LimitRow { r.(blockedUntil := None) }

  /** As written: `UPDATE rate_limits SET blocked_until = NULL WHERE ip LIKE '%' || ip` clears every key ending in `ip`. */
  function UnblockSuffix(rows: map<string, LimitRow>, ip: string): (rows': map<string, LimitRow>)
    ensures rows'.Keys == rows.Keys
  {
    map k | k in rows :: if EndsWith(k, ip) then Unblocked(rows[k]) else rows[k]
  }

  /** The suffix match also releases other addresses: unblocking `1.1.1.1` releases `11.1.1.1`. */
  lemma UnblockSuffixReleasesOthers()
    ensures var rows := map[LimitKey("download", "11.1.1.1") := LimitRow(10, 0, Some(100))];
      && UnblockSuffix(rows, "1.1.1.1")[LimitKey("download", "11.1.1.1")].blockedUntil.None?
      && UnblockExact(rows, "1.1.1.1") == rows
  {
    var k := LimitKey("download", "11.1.1.1");
    assert k == "download:11.1.1.1";
    assert k[|k| - 7..] == "1.1.1.1";
    assert k != LimitKey("download", "1.1.1.1") by { assert |k| != |LimitKey("download", "1.1.1.1")|; }
    assert k != LimitKey("inquiry", "1.1.1.1") by { assert |k| != |LimitKey("inquiry", "1.1.1.1")|; }
  }

  /**
   * Every key ending in the address loses its block and nothing else
   * changes; the address's own two rows are among those keys.
   */
  lemma UnblockSuffixSpec(rows: map<string, LimitRow>, ip: string)
    ensures forall k :: k in rows ==>
      (EndsWith(k, ip) ==> UnblockSuffix(rows, ip)[k] == Unblocked(rows[k]))
      && (!EndsWith(k, ip) ==> UnblockSuffix(rows, ip)[k] == rows[k])
    ensures forall kind :: (kind == "download" || kind == "inquiry") && LimitKey(kind, ip) in rows ==>
      UnblockSuffix(rows, ip)[LimitKey(kind, ip)].blockedUntil.None?
  {
    forall kind | (kind == "download" || kind == "inquiry") && LimitKey(kind, ip) in rows
      ensures UnblockSuffix(rows, ip)[LimitKey(kind, ip)].blockedUntil.None?
    {
      var k := LimitKey(kind, ip);
      assert k[|k| - |ip|..] == ip;
    }
  }

  /** What the comment above the statement intends: clear the `download:` and `inquiry:` rows of this address. */
  function UnblockExact(rows: map<string, LimitRow>, ip: string): (rows': map<string, LimitRow>)
    ensures rows'.Keys == rows.Keys
  {
    map k | k in rows :: if k == LimitKey("download", ip) || k == LimitKey("inquiry", ip) then Unblocked(rows[k]) else rows[k]
  }

  /** Exactly the two rows of the address lose their block; every other row, and every count, stays. */
  lemma UnblockExactSpec(rows: map<string, LimitRow>, ip: string)
    ensures forall k :: k in rows ==>
      (UnblockExact(rows, ip)[k] != rows[k] ==> StripKind(k) == ip)
      && UnblockExact(rows, ip)[k].count == rows[k].count
      && UnblockExact(rows, ip)[k].updatedAt == rows[k].updatedAt
    ensures forall kind :: (kind == "download" || kind == "inquiry") && LimitKey(kind, ip) in rows ==>
      UnblockExact(rows, ip)[LimitKey(kind, ip)].blockedUntil.None?
  {
    StripKindOfKey("download", ip);
    StripKindOfKey("inquiry", ip);
  }

  /** A `downloads` row: the user agent and the referer are cut to 500 UTF-16 units. */
  datatype DownloadRow = DownloadRow(ip: string, userAgent: string, referer: string, country: string, createdAt: int)

  /** `trackDownload`'s answer: 429 with the end of the block, or the total and the downloads left in the window. */
  datatype DownloadReply = TooMany(until: int) | Counted(total: int, remaining: int)

  /** An inserted inquiry with its row id and time. */
  datatype InquiryRow = InquiryRow(id: nat, inquiry: WorkerApi.Inquiry, createdAt: int)

  /** `header || fallback`: a missing or empty header falls back. */
  function HeaderOr(h: Option<string>, fallback: string): string
  {
    if h.Some? && h.value != "" then h.value else fallback
  }

  class WorkerStore {
    var limits: map<string, LimitRow>
    var downloads: seq<DownloadRow>
    /** The `download_count` row of `site_stats`, `None` when it does not exist. */
    var downloadCount: Option<int>
    var inquiries: seq<InquiryRow>
    var lastInquiryId: nat
    /** The shift of the stored times: `KstOffsetMs` as the worker runs. */
    const offset: nat

    /** The stored counts are at least 1, and inquiry ids are increasing and at most `lastInquiryId`. */
    predicate Valid()
      reads this
    {
      (forall k :: k in limits ==> Sane(limits[k]))
      && (forall i :: 0 <= i < |inquiries| ==> 1 <= inquiries[i].id <= lastInquiryId)
      && (forall i, j :: 0 <= i < j < |inquiries| ==> inquiries[i].id < inquiries[j].id)
    }

    constructor (offset: nat, downloadCount: Option<int>)
      ensures Valid() && this.offset == offset && this.downloadCount == downloadCount
      ensures limits == map[] && downloads == [] && inquiries == [] && lastInquiryId == 0
    {
      this.offset := offset;
      this.downloadCount := downloadCount;
      limits := map[];
      downloads := [];
      inquiries := [];
      lastInquiryId := 0;
    }

    /** `checkRateLimit(env, ip, type, maxCount, windowSec)`: one read-modify-write of the key's row. */
    method CheckRateLimit(ip: string, kind: string, maxCount: int, windowSec: int, now: nat) returns (result: RateCheck)
      modifies this
      ensures var key := LimitKey(kind, ip);
        var step := CheckStep(if key in old(limits) then Some(old(limits)[key]) else None, maxCount, windowSec, now, offset);
        && limits == old(limits)[key := step.0] && result == step.1
      ensures downloads == old(downloads) && downloadCount == old(downloadCount)
      ensures inquiries == old(inquiries) && lastInquiryId == old(lastInquiryId)
    {
      var key := LimitKey(kind, ip);
      var stamp := Stamp(now, offset);
      if key in limits {
        var record := limits[key];
        if record.blockedUntil.Some? && now < record.blockedUntil.value {
          assert limits == limits[key := record];
          return Refused(record.blockedUntil.value);
        }
        if now - record.updatedAt < windowSec * 1000 {
          if record.count >= maxCount {
            var blockUntil := Stamp(now + BlockDuration * 1000, offset);
            limits := limits[key := record.(blockedUntil := Some(blockUntil), updatedAt := stamp)];
            return Refused(blockUntil);
          }
          limits := limits[key := record.(count := record.count + 1, updatedAt := stamp)];
          return Allowed(record.count + 1);
        } else {
          limits := limits[key := LimitRow(1, stamp, None)];
          return Allowed(1);
        }
      }
      limits := limits[key := LimitRow(1, stamp, None)];
      return Allowed(1);
    }

    /**
     * `trackDownload`: the client address (`unknown` when missing) is
     * checked against the download limit; a refusal logs nothing; otherwise
     * the download is logged, `download_count` (if present) is incremented,
     * and the answer carries the total and `DOWNLOAD_MAX - count`, which is
     * between 0 and 9.
     */
    method TrackDownload(ip: Option<string>, userAgent: Option<string>, referer: Option<string>,
                         country: Option<string>, now: nat) returns (reply: DownloadReply)
      requires Valid()
      modifies this
      ensures Valid()
      ensures var addr := HeaderOr(ip, "unknown");
        var key := LimitKey("download", addr);
        var step := CheckStep(if key in old(limits) then Some(old(limits)[key]) else None,
                              DownloadMax, DownloadWindow, now, offset);
        && limits == old(limits)[key := step.0]
        && (step.1.Refused? ==>
              reply == TooMany(step.1.until) && downloads == old(downloads) && downloadCount == old(downloadCount))
        && (step.1.Allowed? ==>
              && downloads == old(downloads) + [DownloadRow(addr, Utf16Prefix(HeaderOr(userAgent, ""), 500),
                                                            Utf16Prefix(HeaderOr(referer, ""), 500),
                                                            HeaderOr(country, ""), Stamp(now, offset))]
              && downloadCount == (if old(downloadCount).Some? then Some(old(downloadCount).value + 1) else None)
              && reply == Counted(if downloadCount.Some? then downloadCount.value else 0, DownloadMax - step.1.count))
      ensures reply.Counted? ==> 0 <= reply.remaining < DownloadMax
      ensures inquiries == old(inquiries) && lastInquiryId == old(lastInquiryId)
    {
      var addr := HeaderOr(ip, "unknown");
      ghost var key := LimitKey("download", addr);
      ghost var before := if key in limits then Some(limits[key]) else None;
      CheckBounded(before, DownloadMax, DownloadWindow, now, offset);
      var rateCheck := CheckRateLimit(addr, "download", DownloadMax, DownloadWindow, now);
      if rateCheck.Refused? {
        return TooMany(rateCheck.until);
      }
      downloads := downloads + [DownloadRow(addr, Utf16Prefix(HeaderOr(userAgent, ""), 500), Utf16Prefix(HeaderOr(referer, ""), 500),
                                            HeaderOr(country, ""), Stamp(now, offset))];
      if downloadCount.Some? {
        downloadCount := Some(downloadCount.value + 1);
      }
      var total := if downloadCount.Some? then downloadCount.value else 0;
      reply := Counted(total, DownloadMax - rateCheck.count);
    }

    /**
     * `handleInquiry`: a body that fails validation is answered with its
     * 400 and stores nothing; otherwise the inquiry is inserted under the
     * next row id, which the answer returns.
     */
    method HandleInquiry(body: WorkerApi.InquiryBody, ip: Option<string>, now: nat)
      returns (result: WorkerApi.Checked<nat>)
      requires Valid()
      modifies this
      ensures Valid()
      ensures var v := WorkerApi.ValidateInquiry(body, ip);
        && (v.Rejected? ==>
              result == WorkerApi.Rejected(v.status, v.message)
              && inquiries == old(inquiries) && lastInquiryId == old(lastInquiryId))
        && (v.Accepted? ==>
              && result == WorkerApi.Accepted(old(lastInquiryId) + 1)
              && lastInquiryId == old(lastInquiryId) + 1
              && inquiries == old(inquiries) + [InquiryRow(lastInquiryId, v.value, Stamp(now, offset))])
      ensures limits == old(limits) && downloads == old(downloads) && downloadCount == old(downloadCount)
    {
      var v := WorkerApi.ValidateInquiry(body, ip);
      if v.Rejected? {
        return WorkerApi.Rejected(v.status, v.message);
      }
      lastInquiryId := lastInquiryId + 1;
      inquiries := inquiries + [InquiryRow(lastInquiryId, v.value, Stamp(now, offset))];
      result := WorkerApi.Accepted(lastInquiryId);
    }

    /** `getBlockedIPs`. */
    function BlockedIPs(now: nat): set<BlockedEntry>
      reads this
    {
      BlockedList(limits, now)
    }

    /**
     * `unblockIP` as written: every row whose key ends in the address loses
     * its block, so also those of longer addresses ending in it.
     */
    method UnblockIP(ip: string)
      requires Valid()
      modifies this
      ensures Valid() && limits == UnblockSuffix(old(limits), ip)
      ensures downloads == old(downloads) && downloadCount == old(downloadCount)
      ensures inquiries == old(inquiries) && lastInquiryId == old(lastInquiryId)
    {
      limits := UnblockSuffix(limits, ip);
    }
  }
}
