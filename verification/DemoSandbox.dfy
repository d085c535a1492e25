/** The demo sandbox: per-address and global sliding windows (src/auth/demo/sandbox.ts). */
module DemoSandbox {
  import opened Text
  import opened Windows

  const MINUTE := 60000
  const DAY := 86400000

  datatype Config = Config(ipRpm: int, ipRpd: int, globalRpm: int, globalRpd: int, stalePruneMs: int)

  /** The deployed limits. */
  const SHIPPED := Config(1, 5, 5, 20, 3600000)

  datatype IpWindow = IpWindow(timestamps: seq<int>, windowStart: int)

  datatype Verdict = Allowed | IpRpmExceeded | IpRpdExceeded | GlobalRpmExceeded | GlobalRpdExceeded

  /** No retry time is given when the limit is full with no request in the window (a limit of 0). */
  datatype Result = Result(verdict: Verdict, currentRpm: int, currentRpd: int, globalRpm: int, retryAfter: Option<int>)

  datatype State = State(windows: map<string, IpWindow>, global: seq<int>)

  const STAMP: Lens<int> := Lens((t: int) => t, (t: int) => 1)

  function Stamps(s: State, ip: string): seq<int> {
    if ip in s.windows then s.windows[ip].timestamps else []
  }

  function Wait(active: seq<int>, width: int, now: int): Option<int> {
    if active == [] then None
    else var s := (active[0] + width - now + 999) / 1000; Some(if s > 1 then s else 1)
  }

  /** The decision by the timestamps in the four windows; the third reported count is the global minute's. */
  function Decide(cfg: Config, minute: seq<int>, day: seq<int>, global: seq<int>, globalDay: seq<int>, now: int): Result
  {
    if |minute| >= cfg.ipRpm then
      Result(IpRpmExceeded, |minute|, |day|, |global|, Wait(minute, MINUTE, now))
    else if |day| >= cfg.ipRpd then
      Result(IpRpdExceeded, |minute|, |day|, |global|, Wait(day, DAY, now))
    else if |global| >= cfg.globalRpm then
      Result(GlobalRpmExceeded, |minute|, |day|, |global|, Wait(global, MINUTE, now))
    else if |globalDay| >= cfg.globalRpd then
      Result(GlobalRpdExceeded, |minute|, |day|, |global|, Wait(globalDay, DAY, now))
    else
      Result(Allowed, |minute|, |day|, |global|, None)
  }

  function Check(cfg: Config, s: State, ip: string, now: int): (r: Result) {
    var day := Keep(STAMP, Stamps(s, ip), now - DAY);
    Decide(cfg, Keep(STAMP, day, now - MINUTE), day, Keep(STAMP, s.global, now - MINUTE),
           Keep(STAMP, s.global, now - DAY), now)
  }

  function RecordStep(cfg: Config, s: State, ip: string, now: int): State {
    if !Check(cfg, s, ip, now).verdict.Allowed? then s
    else
      State(s.windows[ip := IpWindow(Keep(STAMP, Stamps(s, ip), now - DAY) + [now], now)],
            Keep(STAMP, s.global, now - DAY) + [now])
  }

  /**
   * What an admitted request reports: the address's counts with it included. In the place of the
   * global minute count stands the number of all global requests held, which reach back a day.
   */
  function Report(s: State, ip: string, now: int): Result {
    Result(Allowed, |Keep(STAMP, Stamps(s, ip), now - MINUTE)|, |Stamps(s, ip)|, |s.global|, None)
  }

  function PruneStep(cfg: Config, s: State, now: int): State {
    s.(windows := map ip | ip in s.windows && s.windows[ip].windowStart >= now - cfg.stalePruneMs :: s.windows[ip])
  }

  class Sandbox {
    const cfg: Config
    var windows: map<string, IpWindow>
    var global: seq<int>

    ghost function View(): State
      reads this
    {
      State(windows, global)
    }

    constructor (cfg: Config)
      ensures this.cfg == cfg && View() == State(map[], [])
    {
      this.cfg := cfg;
      windows, global := map[], [];
    }

    method CheckRateLimit(ip: string, now: int) returns (r: Result)
      ensures r == Check(cfg, View(), ip, now)
    {
      var activeGlobal := Keep(STAMP, global, now - MINUTE);
      var day := if ip in windows then Keep(STAMP, windows[ip].timestamps, now - DAY) else [];
      var minute := Keep(STAMP, day, now - MINUTE);
      if |minute| >= cfg.ipRpm {
        return Result(IpRpmExceeded, |minute|, |day|, |activeGlobal|, Wait(minute, MINUTE, now));
      }
      if |day| >= cfg.ipRpd {
        return Result(IpRpdExceeded, |minute|, |day|, |activeGlobal|, Wait(day, DAY, now));
      }
      if |activeGlobal| >= cfg.globalRpm {
        return Result(GlobalRpmExceeded, |minute|, |day|, |activeGlobal|, Wait(activeGlobal, MINUTE, now));
      }
      var globalDay := Keep(STAMP, global, now - DAY);
      if |globalDay| >= cfg.globalRpd {
        return Result(GlobalRpdExceeded, |minute|, |day|, |activeGlobal|, Wait(globalDay, DAY, now));
      }
      return Result(Allowed, |minute|, |day|, |activeGlobal|, None);
    }

    method RecordRequest(ip: string, now: int) returns (r: Result)
      modifies this
      ensures View() == RecordStep(cfg, old(View()), ip, now)
      ensures r == var check := Check(cfg, old(View()), ip, now);
                   if check.verdict.Allowed? then Report(View(), ip, now) else check
    {
      r := CheckRateLimit(ip, now);
      if !r.verdict.Allowed? {
        return;
      }
      global := Keep(STAMP, global, now - DAY) + [now];
      var valid := if ip in windows then Keep(STAMP, windows[ip].timestamps, now - DAY) else [];
      valid := valid + [now];
      windows := windows[ip := IpWindow(valid, now)];
      r := Result(Allowed, |Keep(STAMP, valid, now - MINUTE)|, |valid|, |global|, None);
    }

    method PruneStaleWindows(now: int)
      modifies this`windows
      ensures View() == PruneStep(cfg, old(View()), now)
    {
      ghost var before := windows;
      var rest := windows.Keys;
      while rest != {}
        invariant rest <= before.Keys
        invariant windows == map ip | ip in before
                               && (ip in rest || before[ip].windowStart >= now - cfg.stalePruneMs) :: before[ip]
        decreases |rest|
      {
        var ip :| ip in rest;
        if windows[ip].windowStart < now - cfg.stalePruneMs {
          windows := windows - {ip};
        }
        rest := rest - {ip};
      }
    }
  }
}
