/** Idempotency keys for mutating requests: a request that carries an
    `Idempotency-Key` header reserves a slot for its fingerprint, and the
    handler's 2xx answer is stored so that a retry replays it. The table of
    reservations is the `idempotencyKey` table; the retention sweep deletes
    old reservations. */
module Idempotency {
  import opened Common
  import opened Json
  import opened Requests

  const IdempotencyHeader := "idempotency-key"
  const MaxKeyLength := 200

  /** Reading the header: no key, a usable key, or the "Idempotency-Key too long" error. */
  datatype KeyRead = NoKey | Key(key: string) | KeyTooLong

  function GetIdempotencyKey(h: Headers): (r: KeyRead)
    ensures r.NoKey? <==> IdempotencyHeader !in h || AllSpace(h[IdempotencyHeader])
    ensures r.KeyTooLong? <==> IdempotencyHeader in h && |Trim(h[IdempotencyHeader])| > MaxKeyLength
    ensures r.Key? ==> IdempotencyHeader in h && r.key == Trim(h[IdempotencyHeader])
    ensures r.Key? ==> 0 < |r.key| <= MaxKeyLength && !IsSpace(r.key[0]) && !IsSpace(r.key[|r.key| - 1])
  {
    if IdempotencyHeader !in h then NoKey
    else
      var raw := h[IdempotencyHeader];
      var trimmed := Trim(raw);
      if raw == "" || trimmed == "" then NoKey
      else if |trimmed| > MaxKeyLength then KeyTooLong
      else Key(trimmed)
  }

  /** What identifies a request for replay; `None` stands for a stored null. */
  datatype Fingerprint = Fingerprint(
    key: string, verb: string, path: string, userId: Option<string>, tenantId: Option<string>)

  /** The fingerprint: the method upper-cased and the path without its query string. */
  function FpFrom(req: Request, key: string, userId: Option<string>, tenantId: Option<string>): (fp: Fingerprint)
    ensures fp.key == key && fp.path == req.url.pathname
    ensures fp.verb == ToUpper(req.verb)
    ensures fp.userId == userId && fp.tenantId == tenantId
  {
    Fingerprint(key, ToUpper(req.verb), req.url.pathname, userId, tenantId)
  }

  /** A query string, the method's letter case and the other headers do not enter the fingerprint. */
  lemma FingerprintIgnoresQuery(req: Request, q: seq<(string, string)>, key: string, u: Option<string>, t: Option<string>)
    ensures FpFrom(req.(url := req.url.(query := q)), key, u, t) == FpFrom(req, key, u, t)
    ensures FpFrom(req.(verb := ToUpper(req.verb)), key, u, t) == FpFrom(req, key, u, t)
  {
    assert ToUpper(ToUpper(req.verb)) == ToUpper(req.verb);
  }

  /** A row of the idempotency table: pending while `statusCode` is absent and `response` null. */
  datatype Record = Record(fp: Fingerprint, statusCode: Option<int>, response: Value, createdAt: int)

  datatype ReserveOutcome =
    | NotRequested                              // mode "none"
    | Replay(statusCode: int, response: Value)  // mode "replay"
    | Reserved(fp: Fingerprint)                 // mode "reserved"
    | InProgress                                // mode "in_progress"
    | TooLong                                   // getIdempotencyKey threw

  /** The first row whose five fingerprint fields equal `fp` (`findFirst` with `equals` on the nullable ones). */
  function FindFirst(rows: seq<Record>, fp: Fingerprint): (r: Option<Record>)
    ensures r.Some? <==> exists i | 0 <= i < |rows| :: rows[i].fp == fp
    ensures r.Some? ==> exists i | 0 <= i < |rows| :: rows[i] == r.value && r.value.fp == fp
    ensures r.Some? ==> exists i | 0 <= i < |rows| :: rows[i] == r.value && forall j | 0 <= j < i :: rows[j].fp != fp
  {
    if rows == [] then None
    else if rows[0].fp == fp then Some(rows[0])
    else
      var r := FindFirst(rows[1..], fp);
      assert forall i | 1 <= i < |rows| :: rows[i] == rows[1..][i - 1];
      r
  }

  /** A stored success: `statusCode` truthy and `response` not null. */
  predicate Completed(rec: Record) {
    rec.statusCode.Some? && rec.statusCode.value != 0 && rec.response != Null
  }

  /** The answer for an existing (or re-read) row: replay when completed, otherwise in progress. */
  function Existing(found: Option<Record>): (r: ReserveOutcome)
    ensures r.Replay? || r.InProgress?
    ensures r.Replay? <==> found.Some? && Completed(found.value)
    ensures r.Replay? ==> Some(r.statusCode) == found.value.statusCode && r.response == found.value.response
  {
    if found.Some? && Completed(found.value) then Replay(found.value.statusCode.value, found.value.response)
    else InProgress
  }

  /** Rows inserted later do not hide a row that is already there. */
  lemma FoundBeforeRace(rows: seq<Record>, raced: seq<Record>, fp: Fingerprint)
    ensures FindFirst(rows, fp).Some? ==> FindFirst(rows + raced, fp).Some?
  {
    if FindFirst(rows, fp).Some? {
      var i :| 0 <= i < |rows| && rows[i].fp == fp;
      assert (rows + raced)[i] == rows[i];
    }
  }

  /** The pending row a successful reservation inserts. */
  function Pending(fp: Fingerprint, now: int): Record {
    Record(fp, None, Null, now)
  }

  /** `reserveIdempotency`. `raced` are the rows other requests inserted between the lookup and
      the insert; the insert fails when `insertFails` or when the unique index on the
      fingerprint already holds a row for it. A failed insert re-reads the table. */
  function Reserve(rows: seq<Record>, req: Request, userId: Option<string>, tenantId: Option<string>,
                   now: int, raced: seq<Record>, insertFails: bool): (res: (ReserveOutcome, seq<Record>))
    ensures GetIdempotencyKey(req.headers).NoKey? ==> res == (NotRequested, rows)
    ensures res.0.NotRequested? <==> GetIdempotencyKey(req.headers).NoKey?
    ensures GetIdempotencyKey(req.headers).KeyTooLong? <==> res.0.TooLong?
    ensures res.0.TooLong? ==> res.1 == rows
    ensures res.0.Reserved? ==> GetIdempotencyKey(req.headers).Key? && !insertFails
    ensures res.0.Reserved? ==> res.0.fp == FpFrom(req, GetIdempotencyKey(req.headers).key, userId, tenantId)
    ensures res.0.Reserved? ==> FindFirst(rows + raced, res.0.fp).None? && res.1 == rows + raced + [Pending(res.0.fp, now)]
    ensures insertFails ==> !res.0.Reserved?
    ensures rows <= res.1
    ensures GetIdempotencyKey(req.headers).Key? ==>
      var fp := FpFrom(req, GetIdempotencyKey(req.headers).key, userId, tenantId);
      FindFirst(rows, fp).Some? ==> res == (Existing(FindFirst(rows, fp)), rows)
    ensures GetIdempotencyKey(req.headers).Key? ==>
      var fp := FpFrom(req, GetIdempotencyKey(req.headers).key, userId, tenantId);
      FindFirst(rows, fp).None? && (insertFails || FindFirst(rows + raced, fp).Some?) ==>
        res == (Existing(FindFirst(rows + raced, fp)), rows + raced)
    ensures GetIdempotencyKey(req.headers).Key? ==>
      var fp := FpFrom(req, GetIdempotencyKey(req.headers).key, userId, tenantId);
      FindFirst(rows + raced, fp).None? && !insertFails ==>
        res == (Reserved(fp), rows + raced + [Pending(fp, now)])
    ensures res.0.Replay? ==>
      && GetIdempotencyKey(req.headers).Key?
      && var found := FindFirst(res.1, FpFrom(req, GetIdempotencyKey(req.headers).key, userId, tenantId));
         found.Some? && Completed(found.value)
         && found.value.statusCode == Some(res.0.statusCode) && found.value.response == res.0.response
    ensures res.0.InProgress? ==>
      && GetIdempotencyKey(req.headers).Key?
      && var found := FindFirst(res.1, FpFrom(req, GetIdempotencyKey(req.headers).key, userId, tenantId));
         (found.Some? ==> !Completed(found.value)) && (found.None? ==> insertFails)
  {
    match GetIdempotencyKey(req.headers)
    case NoKey => (NotRequested, rows)
    case KeyTooLong => (TooLong, rows)
    case Key(key) =>
      var fp := FpFrom(req, key, userId, tenantId);
      var existing := FindFirst(rows, fp);
      if existing.Some? then
        FoundBeforeRace(rows, raced, fp);
        (Existing(existing), rows)
      else
        var table := rows + raced;
        var after := FindFirst(table, fp);
        if insertFails || after.Some? then (Existing(after), table)
        else (Reserved(fp), table + [Pending(fp, now)])
  }

  /** `persistIdempotentSuccess`: only a 2xx answer is stored, on every row of the fingerprint.
      An `undefined` body is a field Prisma leaves out of the update, so the stored
      response stays what it was. */
  function Persist(rows: seq<Record>, fp: Fingerprint, statusCode: int, response: Value): (r: seq<Record>)
    ensures |r| == |rows|
    ensures !(200 <= statusCode < 300) ==> r == rows
    ensures forall i | 0 <= i < |rows| && rows[i].fp != fp :: r[i] == rows[i]
    ensures 200 <= statusCode < 300 && !response.Undef? ==>
      forall i | 0 <= i < |rows| && rows[i].fp == fp ::
        r[i] == rows[i].(statusCode := Some(statusCode), response := response)
    ensures 200 <= statusCode < 300 && response.Undef? ==>
      forall i | 0 <= i < |rows| && rows[i].fp == fp ::
        r[i] == rows[i].(statusCode := Some(statusCode))
  {
    if statusCode < 200 || statusCode >= 300 then rows
    else
      seq(|rows|, i requires 0 <= i < |rows| =>
        if rows[i].fp != fp then rows[i]
        else if response.Undef? then rows[i].(statusCode := Some(statusCode))
        else rows[i].(statusCode := Some(statusCode), response := response))
  }

  /** Storing an answer for one fingerprint never changes what another fingerprint finds. */
  lemma {:induction false} PersistIsolated(rows: seq<Record>, fp: Fingerprint, other: Fingerprint, s: int, resp: Value)
    requires fp != other
    ensures FindFirst(Persist(rows, fp, s, resp), other) == FindFirst(rows, other)
  {
    if rows != [] && 200 <= s < 300 {
      var p := Persist(rows, fp, s, resp);
      assert p[1..] == Persist(rows[1..], fp, s, resp);
      PersistIsolated(rows[1..], fp, other, s, resp);
    }
  }

  /** After a 2xx answer with a body is stored, the fingerprint's first row is that answer. */
  lemma {:induction false} PersistThenFind(rows: seq<Record>, fp: Fingerprint, s: int, resp: Value)
    requires 200 <= s < 300 && resp != Null && resp != Undef
    requires FindFirst(rows, fp).Some?
    ensures FindFirst(Persist(rows, fp, s, resp), fp) == Some(FindFirst(rows, fp).value.(statusCode := Some(s), response := resp))
  {
    var p := Persist(rows, fp, s, resp);
    if rows[0].fp != fp {
      assert p[1..] == Persist(rows[1..], fp, s, resp);
      PersistThenFind(rows[1..], fp, s, resp);
    }
  }

  /** The replay guarantee: reserve, store a 2xx answer, then the same request (same key,
      method, path, user and tenant; any query string) replays exactly that answer. */
  lemma ReplayAfterPersist(rows: seq<Record>, req: Request, again: Request, u: Option<string>, t: Option<string>,
                           now: int, later: int, raced: seq<Record>, raced2: seq<Record>, fails: bool, s: int, resp: Value)
    requires Reserve(rows, req, u, t, now, raced, false).0.Reserved?
    requires again.headers == req.headers && ToUpper(again.verb) == ToUpper(req.verb)
    requires again.url.pathname == req.url.pathname
    requires 200 <= s < 300 && resp != Null && resp != Undef
    ensures var (out, rows1) := Reserve(rows, req, u, t, now, raced, false);
      Reserve(Persist(rows1, out.fp, s, resp), again, u, t, later, raced2, fails)
        == (Replay(s, resp), Persist(rows1, out.fp, s, resp))
  {
    var (out, rows1) := Reserve(rows, req, u, t, now, raced, false);
    var fp := out.fp;
    assert FindFirst(rows1, fp).Some? by {
      assert rows1[|rows1| - 1].fp == fp;
    }
    var rows2 := Persist(rows1, fp, s, resp);
    PersistThenFind(rows1, fp, s, resp);
    var found := FindFirst(rows2, fp);
    assert found.Some? && Completed(found.value) && found.value.statusCode == Some(s) && found.value.response == resp;
    assert FpFrom(again, GetIdempotencyKey(again.headers).key, u, t) == fp;
  }

  /** Storing an `undefined` body leaves the reserved row's response null, so a retry is
      still told the request is in progress. */
  lemma UndefinedBodyStaysInProgress(rows: seq<Record>, req: Request, u: Option<string>, t: Option<string>,
                                     now: int, later: int, raced: seq<Record>, raced2: seq<Record>, fails: bool, s: int)
    requires Reserve(rows, req, u, t, now, raced, false).0.Reserved?
    ensures var (out, rows1) := Reserve(rows, req, u, t, now, raced, false);
      Reserve(Persist(rows1, out.fp, s, Undef), req, u, t, later, raced2, fails)
        == (InProgress, Persist(rows1, out.fp, s, Undef))
  {
    var (out, rows1) := Reserve(rows, req, u, t, now, raced, false);
    var fp := out.fp;
    var rows2 := Persist(rows1, fp, s, Undef);
    assert FindFirst(rows2, fp).Some? && FindFirst(rows2, fp).value.response == Null by {
      assert rows1 == (rows + raced) + [Pending(fp, now)];
      PersistKeepsFirst(rows + raced, fp, Pending(fp, now), s);
    }
    assert FpFrom(req, GetIdempotencyKey(req.headers).key, u, t) == fp;
  }

  /** Persisting after an appended pending row for an unseen fingerprint: the lookup
      finds that row, with the new status if 2xx and its own (null) response. */
  lemma {:induction false} PersistKeepsFirst(rows: seq<Record>, fp: Fingerprint, rec: Record, s: int)
    requires FindFirst(rows, fp).None? && rec.fp == fp
    ensures FindFirst(Persist(rows + [rec], fp, s, Undef), fp).Some?
    ensures FindFirst(Persist(rows + [rec], fp, s, Undef), fp).value.response == rec.response
  {
    if rows == [] {
      assert Persist(rows + [rec], fp, s, Undef)[0].fp == fp;
    } else {
      var p := Persist(rows + [rec], fp, s, Undef);
      assert (rows + [rec])[1..] == rows[1..] + [rec];
      assert p[1..] == Persist(rows[1..] + [rec], fp, s, Undef);
      PersistKeepsFirst(rows[1..], fp, rec, s);
    }
  }

  /** While the first request is still running, a duplicate is told it is in progress. */
  lemma DuplicateWhilePending(rows: seq<Record>, req: Request, u: Option<string>, t: Option<string>,
                              now: int, later: int, raced: seq<Record>, raced2: seq<Record>, fails: bool)
    requires Reserve(rows, req, u, t, now, raced, false).0.Reserved?
    ensures var rows1 := Reserve(rows, req, u, t, now, raced, false).1;
      Reserve(rows1, req, u, t, later, raced2, fails) == (InProgress, rows1)
  {
    var (out, rows1) := Reserve(rows, req, u, t, now, raced, false);
    assert rows1[|rows1| - 1] == Pending(out.fp, now);
    var found := FindFirst(rows1, out.fp);
    assert found == Some(Pending(out.fp, now)) by {
      FindFirstAppend(rows + raced, out.fp, Pending(out.fp, now));
    }
  }

  lemma {:induction false} FindFirstAppend(rows: seq<Record>, fp: Fingerprint, rec: Record)
    requires FindFirst(rows, fp).None? && rec.fp == fp
    ensures FindFirst(rows + [rec], fp) == Some(rec)
  {
    if rows != [] {
      assert (rows + [rec])[1..] == rows[1..] + [rec];
      FindFirstAppend(rows[1..], fp, rec);
    }
  }

  /** `Number(IDEMPOTENCY_TTL_HOURS || 24)`: unset or empty means 24 hours. */
  function RetentionHours(ttlEnv: Option<int>): (h: int)
    ensures ttlEnv.None? ==> h == 24
    ensures ttlEnv.Some? ==> h == ttlEnv.value
  {
    if ttlEnv.Some? then ttlEnv.value else 24
  }

  /** Records created strictly before this instant (in ms) are swept. */
  function Cutoff(ttlEnv: Option<int>, now: int): (c: int)
    ensures c == now - RetentionHours(ttlEnv) * 3_600_000
    ensures ttlEnv.None? ==> c == now - 86_400_000
  {
    now - RetentionHours(ttlEnv) * 60 * 60 * 1000
  }

  /** `deleteMany({ where: { createdAt: { lt: cutoff } } })`, pending and completed alike. */
  function Sweep(rows: seq<Record>, cutoff: int): (r: seq<Record>)
    ensures |r| <= |rows|
    ensures forall x | x in r :: x in rows && x.createdAt >= cutoff
    ensures forall x | x in rows && x.createdAt >= cutoff :: x in r
  {
    if rows == [] then []
    else if rows[0].createdAt < cutoff then Sweep(rows[1..], cutoff)
    else [rows[0]] + Sweep(rows[1..], cutoff)
  }

  /** Sweeping keeps the relative order of what it keeps, and sweeping twice changes nothing. */
  lemma {:induction false} SweepIdempotent(rows: seq<Record>, cutoff: int)
    ensures Sweep(Sweep(rows, cutoff), cutoff) == Sweep(rows, cutoff)
  {
    if rows != [] {
      SweepIdempotent(rows[1..], cutoff);
    }
  }

  /** The idempotency table. */
  class IdempotencyStore {
    var rows: seq<Record>

    constructor ()
      ensures rows == []
    {
      rows := [];
    }

    method ReserveIdempotency(req: Request, userId: Option<string>, tenantId: Option<string>,
                              now: int, raced: seq<Record>, insertFails: bool) returns (out: ReserveOutcome)
      modifies this
      ensures (out, rows) == Reserve(old(rows), req, userId, tenantId, now, raced, insertFails)
      ensures out.NotRequested? <==> GetIdempotencyKey(req.headers).NoKey?
      ensures GetIdempotencyKey(req.headers).Key? ==>
        var fp := FpFrom(req, GetIdempotencyKey(req.headers).key, userId, tenantId);
        FindFirst(old(rows) + raced, fp).None? && !insertFails ==>
          out == Reserved(fp) && rows == old(rows) + raced + [Pending(fp, now)]
    {
      var key := GetIdempotencyKey(req.headers);
      if key.NoKey? {
        return NotRequested;
      }
      if key.KeyTooLong? {
        return TooLong;
      }
      var fp := FpFrom(req, key.key, userId, tenantId);
      var existing := FindFirst(rows, fp);
      if existing.Some? {
        return Existing(existing);
      }
      rows := rows + raced;
      var clash := FindFirst(rows, fp);
      if insertFails || clash.Some? {
        out := Existing(clash);
      } else {
        rows := rows + [Pending(fp, now)];
        out := Reserved(fp);
      }
    }

    method PersistIdempotentSuccess(fp: Fingerprint, statusCode: int, response: Value)
      modifies this
      ensures rows == Persist(old(rows), fp, statusCode, response)
    {
      rows := Persist(rows, fp, statusCode, response);
    }

    /** The retention sweep; answers the number of deleted rows. */
    method Cleanup(ttlEnv: Option<int>, now: int) returns (deleted: nat)
      modifies this
      ensures rows == Sweep(old(rows), Cutoff(ttlEnv, now))
      ensures deleted == |old(rows)| - |rows|
    {
      var cutoff := Cutoff(ttlEnv, now);
      var before := |rows|;
      rows := Sweep(rows, cutoff);
      deleted := before - |rows|;
    }
  }
}
