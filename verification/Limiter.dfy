/** internal/inbound/handler.go: the fixed-window rate limit per public id. */
module Limiter {
  import opened Basics

  type PublicId = string

  datatype Window = Window(start: Time, count: int)

  type Windows = map<PublicId, Window>

  datatype Config = Config(rateLimit: int, rateWindow: Time)

  /** The map is emptied before growing past this size. */
  const MAP_BOUND := 4096

  // -------------------------------------------------------------- one request

  predicate Expired(m: Windows, id: PublicId, now: Time, cfg: Config) {
    id !in m || now - m[id].start >= cfg.rateWindow
  }

  /** Whether a request empties the whole map. */
  predicate Resets(m: Windows, id: PublicId, now: Time, cfg: Config) {
    Expired(m, id, now, cfg) && |m| > MAP_BOUND
  }

  /** The map once the request has a current window. */
  function Opened(m: Windows, id: PublicId, now: Time, cfg: Config): (r: Windows)
    ensures id in r
  {
    if !Expired(m, id, now, cfg) then m
    else (if |m| > MAP_BOUND then map[] else m)[id := Window(now, 0)]
  }

  predicate Admits(m: Windows, id: PublicId, now: Time, cfg: Config) {
    Opened(m, id, now, cfg)[id].count < cfg.rateLimit
  }

  function After(m: Windows, id: PublicId, now: Time, cfg: Config): Windows {
    var o := Opened(m, id, now, cfg);
    if o[id].count < cfg.rateLimit then o[id := o[id].(count := o[id].count + 1)] else o
  }

  class Handler {
    const cfg: Config
    var limiter: Windows

    constructor (cfg: Config)
      ensures this.cfg == cfg && limiter == map[]
    {
      this.cfg := cfg;
      limiter := map[];
    }

    method Allow(publicId: PublicId, now: Time) returns (ok: bool)
      modifies this
      ensures ok == Admits(old(limiter), publicId, now, cfg)
      ensures limiter == After(old(limiter), publicId, now, cfg)
    {
      if publicId !in limiter || now - limiter[publicId].start >= cfg.rateWindow {
        if |limiter| > MAP_BOUND {
          limiter := map[];
        }
        limiter := limiter[publicId := Window(now, 0)];
      }
      var entry := limiter[publicId];
      if entry.count >= cfg.rateLimit {
        return false;
      }
      limiter := limiter[publicId := entry.(count := entry.count + 1)];
      return true;
    }
  }

  // --------------------------------------------------------------- invariants

  /** Every stored window has admitted at least its opening request and at most
      the limit, and the map stays small. */
  ghost predicate Bounded(m: Windows, cfg: Config) {
    && |m| <= 4097
    && forall id :: id in m ==> if cfg.rateLimit <= 0 then m[id].count == 0 else 1 <= m[id].count <= cfg.rateLimit
  }

  datatype Request = Request(id: PublicId, at: Time)

  /** The windows after a run of requests. */
  function Serve(m: Windows, run: seq<Request>, cfg: Config): Windows
    decreases |run|
  {
    if run == [] then m else Serve(After(m, run[0].id, run[0].at, cfg), run[1..], cfg)
  }

  lemma InsertSize<K, V>(m: map<K, V>, k: K, v: V)
    ensures |m[k := v]| == if k in m then |m| else |m| + 1
  {
    assert m[k := v].Keys == m.Keys + {k};
  }

  lemma {:induction false} ServeKeepsBounded(m: Windows, run: seq<Request>, cfg: Config)
    requires Bounded(m, cfg)
    ensures Bounded(Serve(m, run, cfg), cfg)
    decreases |run|
  {
    if run != [] {
      var id, now := run[0].id, run[0].at;
      var o := Opened(m, id, now, cfg);
      if Expired(m, id, now, cfg) {
        InsertSize(if |m| > MAP_BOUND then map[] else m, id, Window(now, 0));
        if id in m && |m| == MAP_BOUND + 1 {
          assert |o| == 1;
        }
      }
      InsertSize(o, id, o[id].(count := o[id].count + 1));
      ServeKeepsBounded(After(m, id, now, cfg), run[1..], cfg);
    }
  }

  // ---------------------------------------------------------- the rate promise

  ghost predicate Monotone(run: seq<Request>) {
    forall i, j :: 0 <= i < j < |run| ==> run[i].at <= run[j].at
  }

  /** No request of the run empties the map. */
  ghost predicate NeverResets(m: Windows, run: seq<Request>, cfg: Config)
    decreases |run|
  {
    run != [] ==>
      && !Resets(m, run[0].id, run[0].at, cfg)
      && NeverResets(After(m, run[0].id, run[0].at, cfg), run[1..], cfg)
  }

  /** How many requests of one id at instants in [from, to) a run admits. */
  function Admitted(m: Windows, run: seq<Request>, cfg: Config, id: PublicId, from: Time, to: Time): nat
    decreases |run|
  {
    if run == [] then 0
    else
      var r := run[0];
      (if r.id == id && from <= r.at < to && Admits(m, r.id, r.at, cfg) then 1 else 0)
      + Admitted(After(m, r.id, r.at, cfg), run[1..], cfg, id, from, to)
  }

  /** What is left of a window opened at or after the interval's start. */
  lemma {:induction false} WithinOneWindow(m: Windows, run: seq<Request>, cfg: Config, id: PublicId, from: Time)
    requires Monotone(run) && NeverResets(m, run, cfg)
    requires id in m && from <= m[id].start && m[id].count <= cfg.rateLimit
    ensures Admitted(m, run, cfg, id, from, from + cfg.rateWindow) <= cfg.rateLimit - m[id].count
    decreases |run|
  {
    if run != [] {
      var r := run[0];
      var m' := After(m, r.id, r.at, cfg);
      if r.id != id || r.at < from + cfg.rateWindow {
        WithinOneWindow(m', run[1..], cfg, id, from);
      } else {
        PastTheInterval(m', run[1..], cfg, id, from, from + cfg.rateWindow);
      }
    }
  }

  lemma {:induction false} PastTheInterval(m: Windows, run: seq<Request>, cfg: Config, id: PublicId, from: Time, to: Time)
    requires forall i :: 0 <= i < |run| ==> to <= run[i].at
    ensures Admitted(m, run, cfg, id, from, to) == 0
    decreases |run|
  {
    if run != [] {
      PastTheInterval(After(m, run[0].id, run[0].at, cfg), run[1..], cfg, id, from, to);
    }
  }

  /** The capacity an older window still has inside the interval. */
  function Carried(m: Windows, id: PublicId, cfg: Config): int {
    if id in m then cfg.rateLimit - m[id].count else 0
  }

  /** Once inside the interval, at most one older and one newer window count. */
  lemma {:induction false} AcrossTwoWindows(m: Windows, run: seq<Request>, cfg: Config, id: PublicId, from: Time)
    requires Monotone(run) && NeverResets(m, run, cfg)
    requires 0 < cfg.rateLimit && (id in m ==> 1 <= m[id].count <= cfg.rateLimit)
    requires forall i :: 0 <= i < |run| ==> from <= run[i].at
    ensures Admitted(m, run, cfg, id, from, from + cfg.rateWindow) <= Carried(m, id, cfg) + cfg.rateLimit
    decreases |run|
  {
    if run != [] {
      var r := run[0];
      var m' := After(m, r.id, r.at, cfg);
      if r.id == id && Expired(m, id, r.at, cfg) {
        WithinOneWindow(m', run[1..], cfg, id, from);
      } else {
        AcrossTwoWindows(m', run[1..], cfg, id, from);
      }
    }
  }

  /** Any half-open interval of one window length admits fewer than twice the
      limit per public id, as long as the map is not emptied. */
  lemma {:induction false} RateIsBounded(m: Windows, run: seq<Request>, cfg: Config, id: PublicId, from: Time)
    requires Monotone(run) && NeverResets(m, run, cfg)
    requires 0 < cfg.rateLimit && Bounded(m, cfg)
    ensures Admitted(m, run, cfg, id, from, from + cfg.rateWindow) <= 2 * cfg.rateLimit - 1
    decreases |run|
  {
    if run != [] && run[0].at < from {
      ServeKeepsBounded(m, run[..1], cfg);
      assert run[..1][1..] == [];
      RateIsBounded(After(m, run[0].id, run[0].at, cfg), run[1..], cfg, id, from);
    } else {
      AcrossTwoWindows(m, run, cfg, id, from);
    }
  }

  /** A limit of zero or less admits nothing. */
  lemma {:induction false} NoLimitNoAdmission(m: Windows, run: seq<Request>, cfg: Config, id: PublicId, from: Time, to: Time)
    requires cfg.rateLimit <= 0 && forall i :: i in m ==> 0 <= m[i].count
    ensures Admitted(m, run, cfg, id, from, to) == 0
    decreases |run|
  {
    if run != [] {
      NoLimitNoAdmission(After(m, run[0].id, run[0].at, cfg), run[1..], cfg, id, from, to);
    }
  }

  function Repeated(id: PublicId, at: Time, n: nat): (run: seq<Request>)
    ensures |run| == n && forall i :: 0 <= i < n ==> run[i] == Request(id, at)
  {
    seq(n, i => Request(id, at))
  }

  /** A run by its first request. */
  lemma Unfold(m: Windows, r: Request, rest: seq<Request>, cfg: Config, id: PublicId, from: Time, to: Time)
    ensures Admitted(m, [r] + rest, cfg, id, from, to) ==
      (if r.id == id && from <= r.at < to && Admits(m, r.id, r.at, cfg) then 1 else 0)
      + Admitted(After(m, r.id, r.at, cfg), rest, cfg, id, from, to)
    ensures NeverResets(m, [r] + rest, cfg) <==> !Resets(m, r.id, r.at, cfg) && NeverResets(After(m, r.id, r.at, cfg), rest, cfg)
  {
    assert ([r] + rest)[1..] == rest;
  }

  /** n requests at one instant under an open window with room for them. */
  lemma {:induction false} AllAdmitted(w: Window, n: nat, rest: seq<Request>, cfg: Config, id: PublicId, at: Time, from: Time, to: Time)
    requires at - w.start < cfg.rateWindow && w.count + n <= cfg.rateLimit && from <= at < to
    ensures var m, m' := map[id := w], map[id := w.(count := w.count + n)];
      && Admitted(m, Repeated(id, at, n) + rest, cfg, id, from, to) == n + Admitted(m', rest, cfg, id, from, to)
      && (NeverResets(m', rest, cfg) ==> NeverResets(m, Repeated(id, at, n) + rest, cfg))
    decreases n
  {
    var run := Repeated(id, at, n) + rest;
    if n == 0 {
      assert run == rest;
    } else {
      assert run[0] == Request(id, at) && run[1..] == Repeated(id, at, n - 1) + rest;
      assert After(map[id := w], id, at, cfg) == map[id := w.(count := w.count + 1)];
      AllAdmitted(w.(count := w.count + 1), n - 1, rest, cfg, id, at, from, to);
    }
  }

  /** A window opened early and filled at its last instant, then the next one filled
      as soon as it opens. */
  function Burst(id: PublicId, cfg: Config): seq<Request>
    requires 0 < cfg.rateLimit
  {
    [Request(id, 0)] + (Repeated(id, cfg.rateWindow - 1, cfg.rateLimit - 1) + Repeated(id, cfg.rateWindow, cfg.rateLimit))
  }

  /** The second half of the burst, after a full window. */
  lemma RollOver(id: PublicId, cfg: Config)
    requires 0 < cfg.rateLimit && 2 <= cfg.rateWindow
    ensures var m, run, from := map[id := Window(0, cfg.rateLimit)], Repeated(id, cfg.rateWindow, cfg.rateLimit), cfg.rateWindow - 1;
      && NeverResets(m, run, cfg)
      && Admitted(m, run, cfg, id, from, from + cfg.rateWindow) == cfg.rateLimit
  {
    var m, now, n := map[id := Window(0, cfg.rateLimit)], cfg.rateWindow, cfg.rateLimit - 1;
    var first, rest := Request(id, now), Repeated(id, now, n);
    assert Repeated(id, now, cfg.rateLimit) == [first] + rest && rest + [] == rest;
    Unfold(m, first, rest, cfg, id, now - 1, now - 1 + cfg.rateWindow);
    assert After(m, id, now, cfg) == map[id := Window(now, 1)];
    AllAdmitted(Window(now, 1), n, [], cfg, id, now, now - 1, now - 1 + cfg.rateWindow);
  }

  lemma BurstIsMonotone(id: PublicId, cfg: Config)
    requires 0 < cfg.rateLimit && 2 <= cfg.rateWindow
    ensures Monotone(Burst(id, cfg))
  {
  }

  /** The burst after its opening request. */
  lemma BothWindows(id: PublicId, cfg: Config, run: seq<Request>)
    requires 0 < cfg.rateLimit && 2 <= cfg.rateWindow
    requires run == Repeated(id, cfg.rateWindow - 1, cfg.rateLimit - 1) + Repeated(id, cfg.rateWindow, cfg.rateLimit)
    ensures var m, from := map[id := Window(0, 1)], cfg.rateWindow - 1;
      && NeverResets(m, run, cfg)
      && Admitted(m, run, cfg, id, from, from + cfg.rateWindow) == 2 * cfg.rateLimit - 1
  {
    var last, n := cfg.rateWindow - 1, cfg.rateLimit - 1;
    RollOver(id, cfg);
    AllAdmitted(Window(0, 1), n, Repeated(id, cfg.rateWindow, cfg.rateLimit), cfg, id, last, last, last + cfg.rateWindow);
  }

  /** The bound is reached for every positive limit and every window of at least two
      instants. */
  lemma BoundIsReached(id: PublicId, cfg: Config)
    requires 0 < cfg.rateLimit && 2 <= cfg.rateWindow
    ensures Monotone(Burst(id, cfg)) && NeverResets(map[], Burst(id, cfg), cfg)
    ensures var from := cfg.rateWindow - 1;
      Admitted(map[], Burst(id, cfg), cfg, id, from, from + cfg.rateWindow) == 2 * cfg.rateLimit - 1
  {
    var last := cfg.rateWindow - 1;
    var rest := Repeated(id, last, cfg.rateLimit - 1) + Repeated(id, cfg.rateWindow, cfg.rateLimit);
    BurstIsMonotone(id, cfg);
    BothWindows(id, cfg, rest);
    OpeningRequest(id, cfg, rest, last);
  }

  lemma OpeningRequest(id: PublicId, cfg: Config, rest: seq<Request>, from: Time)
    requires 0 < cfg.rateLimit && 0 < from
    ensures var run, m := [Request(id, 0)] + rest, map[id := Window(0, 1)];
      && (NeverResets(map[], run, cfg) <==> NeverResets(m, rest, cfg))
      && Admitted(map[], run, cfg, id, from, from + cfg.rateWindow) == Admitted(m, rest, cfg, id, from, from + cfg.rateWindow)
  {
    Unfold(map[], Request(id, 0), rest, cfg, id, from, from + cfg.rateWindow);
    assert After(map[], id, 0, cfg) == map[id := Window(0, 1)];
  }

  /** Emptying the map forgets full windows: an id that is at its limit is
      admitted again inside the same window right after any reset. */
  lemma ResetForgetsLimits(m: Windows, id: PublicId, other: PublicId, now: Time, cfg: Config)
    requires 0 < cfg.rateLimit && id != other && id in m
    requires !Expired(m, id, now, cfg) && m[id].count >= cfg.rateLimit
    ensures !Admits(m, id, now, cfg)
    ensures Admits(After(m, other, now, cfg), id, now, cfg) <==> Resets(m, other, now, cfg)
  {
  }
}
