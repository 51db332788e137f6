/** The arm trajectory action of the RM65 bridge: what it publishes, how long it sleeps, how it ends. */
module ArmTrajectory {
  import opened Names
  import opened Numbers
  import opened Poses

  datatype Params = Params(interp: bool, rate: real, maxStep: real, minDt: real, follow: bool)

  datatype Point = Point(positions: seq<real>, sec: int, nanosec: nat)

  datatype Trajectory = Trajectory(names: seq<string>, points: seq<Point>)

  datatype Event = Publish(joints: seq<real>, follow: bool) | Sleep(seconds: real) | Succeed | Abort

  datatype Code = SUCCESSFUL | INVALID_GOAL | INVALID_JOINTS

  predicate Usable(p: Params) {
    p.rate > 0.0 && p.maxStep > 0.0 && p.minDt > 0.0
  }

  /** The parameters in use: a value that is not positive counts as a default. */
  function Effective(p: Params): (e: Params)
    ensures Usable(e) && (Usable(p) ==> e == p)
  {
    Params(p.interp, if p.rate <= 0.0 then 50.0 else p.rate, if p.maxStep <= 0.0 then 0.02 else p.maxStep,
           if p.minDt <= 0.0 then 0.01 else p.minDt, p.follow)
  }

  // ------------------------------------------------------------------ waypoints

  predicate WellFormed(traj: Trajectory, k: nat)
    requires k < |traj.points|
  {
    |traj.points[k].positions| == |traj.names|
  }

  predicate AllWellFormed(traj: Trajectory, k: nat)
    requires k <= |traj.points|
  {
    forall i: nat | i < k :: WellFormed(traj, i)
  }

  /** A waypoint in the arm's joint order and its time_from_start. */
  datatype Stop = Stop(pose: Pose, time: real)

  function Time(pt: Point): real {
    pt.sec as real + pt.nanosec as real / 1000000000.0
  }

  function StopAt(traj: Trajectory, k: nat): Stop
    requires k < |traj.points| && WellFormed(traj, k) && Complete(traj.names)
  {
    var pt := traj.points[k];
    Stop(PoseOf(traj.names, pt.positions), Time(pt))
  }

  function Stops(traj: Trajectory, k: nat): (r: seq<Stop>)
    requires k <= |traj.points| && AllWellFormed(traj, k) && Complete(traj.names)
    ensures |r| == k
    ensures forall i | 0 <= i < k :: r[i] == StopAt(traj, i)
  {
    seq(k, i requires 0 <= i < k => StopAt(traj, i))
  }

  /** The time since the previous stop, or since the start; never negative. */
  function Dt(stops: seq<Stop>, k: nat): real
    requires k < |stops|
  {
    Max(0.0, stops[k].time - if k == 0 then 0.0 else stops[k - 1].time)
  }

  // ------------------------------------------------------------------ one move

  function MaxInt(x: int, y: int): int {
    if x < y then y else x
  }

  function Quotient(x: real, y: real): real
    requires y > 0.0
  {
    x / y
  }

  function Product(x: real, y: real): real {
    x * y
  }

  /** Into how many segments a move is cut. */
  function Segments(p: Params, a: Pose, b: Pose, dt: real): (n: nat)
    requires Usable(p)
    ensures n >= 1
  {
    if p.interp && dt > 0.0 then
      var byStep := if p.maxStep > 0.000000001 then Ceil(Quotient(MaxDelta(a, b, DOF), p.maxStep)) else 1;
      MaxInt(MaxInt(1, byStep), Ceil(Product(dt, p.rate)))
    else 1
  }

  /** s n-ths of a distance. */
  function Share(d: real, s: nat, n: nat): real
    requires n >= 1
  {
    (s as real / n as real) * d
  }

  function Blend(a: Pose, b: Pose, s: nat, n: nat): Pose
    requires n >= 1
  {
    seq(DOF, j requires 0 <= j < DOF => a[j] + Share(b[j] - a[j], s, n))
  }

  function Ramp(p: Params, a: Pose, b: Pose, n: nat, pause: real, s: nat): seq<Event>
    requires n >= 1
  {
    if s == 0 then [] else Ramp(p, a, b, n, pause, s - 1) + [Publish(Blend(a, b, s, n), p.follow), Sleep(pause)]
  }

  function Pause(p: Params, dt: real, n: nat): real
    requires n >= 1
  {
    Max(p.minDt, Quotient(dt, n as real))
  }

  function Move(p: Params, a: Pose, b: Pose, dt: real): seq<Event>
    requires Usable(p)
  {
    if p.interp && dt > 0.0 then
      var n := Segments(p, a, b, dt);
      Ramp(p, a, b, n, Pause(p, dt, n), n)
    else [Publish(b, p.follow)] + if dt > 0.0 then [Sleep(Max(p.minDt, dt))] else []
  }

  function First(p: Params, b: Pose, dt: real): seq<Event> {
    [Publish(b, p.follow)] + if dt > 0.0 then [Sleep(dt)] else []
  }

  /** What the first k stops cause. */
  function Walk(p: Params, stops: seq<Stop>, k: nat): seq<Event>
    requires Usable(p) && k <= |stops|
  {
    if k == 0 then []
    else if k == 1 then First(p, stops[0].pose, Dt(stops, 0))
    else Walk(p, stops, k - 1) + Move(p, stops[k - 2].pose, stops[k - 1].pose, Dt(stops, k - 1))
  }

  // ------------------------------------------------------------------ what a trace amounts to

  function Commands(trace: seq<Event>): seq<seq<real>> {
    if |trace| == 0 then []
    else Commands(trace[..|trace| - 1]) + match trace[|trace| - 1] case Publish(joints, _) => [joints] case _ => []
  }

  function TotalSleep(trace: seq<Event>): real {
    if |trace| == 0 then 0.0
    else TotalSleep(trace[..|trace| - 1]) + match trace[|trace| - 1] case Sleep(x) => x case _ => 0.0
  }

  function Terminals(trace: seq<Event>): nat {
    if |trace| == 0 then 0
    else Terminals(trace[..|trace| - 1]) + if trace[|trace| - 1].Succeed? || trace[|trace| - 1].Abort? then 1 else 0
  }

  lemma {:induction false} CommandsAdd(s: seq<Event>, t: seq<Event>)
    ensures Commands(s + t) == Commands(s) + Commands(t)
  {
    if |t| == 0 {
      assert s + t == s;
    } else {
      CommandsAdd(s, t[..|t| - 1]);
      assert (s + t)[..|s + t| - 1] == s + t[..|t| - 1];
    }
  }

  lemma {:induction false} SleepAdds(s: seq<Event>, t: seq<Event>)
    ensures TotalSleep(s + t) == TotalSleep(s) + TotalSleep(t)
  {
    if |t| == 0 {
      assert s + t == s;
    } else {
      SleepAdds(s, t[..|t| - 1]);
      assert (s + t)[..|s + t| - 1] == s + t[..|t| - 1];
    }
  }

  lemma {:induction false} TerminalsAdd(s: seq<Event>, t: seq<Event>)
    ensures Terminals(s + t) == Terminals(s) + Terminals(t)
  {
    if |t| == 0 {
      assert s + t == s;
    } else {
      TerminalsAdd(s, t[..|t| - 1]);
      assert (s + t)[..|s + t| - 1] == s + t[..|t| - 1];
    }
  }

  lemma OneEvent(s: seq<Event>, e: Event)
    ensures Commands(s + [e]) == Commands(s) + Commands([e])
    ensures TotalSleep(s + [e]) == TotalSleep(s) + TotalSleep([e])
    ensures Terminals(s + [e]) == Terminals(s) + Terminals([e])
  {
    assert (s + [e])[..|s|] == s;
    assert [e][..0] == [];
  }

  // ------------------------------------------------------------------ shares of a distance

  lemma ShareAll(d: real, n: nat)
    requires n >= 1
    ensures Share(d, n, n) == d && Share(d, 0, n) == 0.0
  {
  }

  lemma ShareNext(d: real, s: nat, n: nat)
    requires n >= 1 && s >= 1
    ensures Share(d, s, n) - Share(d, s - 1, n) == Quotient(d, n as real)
  {
    var m := n as real;
    assert s as real / m - (s - 1) as real / m == 1.0 / m;
    assert (s as real / m) * d - ((s - 1) as real / m) * d == (1.0 / m) * d;
  }

  lemma NonNegative(x: real, y: real)
    requires x >= 0.0 && y >= 0.0
    ensures x * y >= 0.0
  {
  }

  lemma ShareBetween(d: real, s: nat, n: nat)
    requires n >= 1 && s <= n
    ensures d >= 0.0 ==> 0.0 <= Share(d, s, n) <= d
    ensures d <= 0.0 ==> d <= Share(d, s, n) <= 0.0
  {
    var alpha := s as real / n as real;
    assert 0.0 <= alpha <= 1.0;
    var beta := 1.0 - alpha;
    assert beta * d == d - alpha * d;
    if d >= 0.0 {
      NonNegative(alpha, d);
      NonNegative(beta, d);
    } else {
      NonNegative(alpha, -d);
      NonNegative(beta, -d);
      assert alpha * -d == -(alpha * d) && beta * -d == -(beta * d);
    }
  }

  lemma QuotientBound(d: real, m: real, n: nat)
    requires n >= 1 && m > 0.0
    ensures Abs(Quotient(d, n as real)) <= m <==> Abs(d) <= Product(m, n as real)
  {
    var q, r := Quotient(d, n as real), n as real;
    assert q * r == d;
    if Abs(q) <= m {
      assert (m - q) * r >= 0.0 && (m + q) * r >= 0.0;
    } else if q > m {
      assert (q - m) * r > 0.0;
    } else {
      assert (-q - m) * r > 0.0;
    }
  }

  lemma CeilCovers(d: real, m: real, n: nat)
    requires n >= 1 && m > 0.0 && n >= Ceil(Quotient(d, m))
    ensures d <= Product(m, n as real)
  {
    var q := Quotient(d, m);
    assert q <= n as real;
    assert q * m == d;
    assert (n as real - q) * m >= 0.0;
  }

  // ------------------------------------------------------------------ the commands of a move

  function Blends(a: Pose, b: Pose, n: nat, s: nat): (r: seq<seq<real>>)
    requires n >= 1
    ensures |r| == s
  {
    seq(s, k requires 0 <= k < s => Blend(a, b, k + 1, n))
  }

  /** A command and the sleep after it. */
  lemma CommandAndSleep(t: seq<Event>, joints: seq<real>, follow: bool, pause: real)
    ensures var more := t + [Publish(joints, follow), Sleep(pause)];
            && Commands(more) == Commands(t) + [joints]
            && TotalSleep(more) == TotalSleep(t) + pause
            && Terminals(more) == Terminals(t)
  {
    var e := Publish(joints, follow);
    assert t + [e, Sleep(pause)] == (t + [e]) + [Sleep(pause)];
    OneEvent(t, e);
    OneEvent(t + [e], Sleep(pause));
    assert [e][..0] == [] && [Sleep(pause)][..0] == [];
    assert Commands(t) + [joints] + [] == Commands(t) + [joints];
  }

  lemma BlendsNext(a: Pose, b: Pose, n: nat, s: nat)
    requires n >= 1 && s >= 1
    ensures Blends(a, b, n, s) == Blends(a, b, n, s - 1) + [Blend(a, b, s, n)]
  {
  }

  lemma ProductNext(s: nat, pause: real)
    requires s >= 1
    ensures Product(s as real, pause) == Product((s - 1) as real, pause) + pause
  {
  }

  lemma {:induction false} RampCommands(p: Params, a: Pose, b: Pose, n: nat, pause: real, s: nat)
    requires n >= 1
    ensures Commands(Ramp(p, a, b, n, pause, s)) == Blends(a, b, n, s)
    ensures TotalSleep(Ramp(p, a, b, n, pause, s)) == Product(s as real, pause)
    ensures Terminals(Ramp(p, a, b, n, pause, s)) == 0
  {
    if s > 0 {
      RampCommands(p, a, b, n, pause, s - 1);
      CommandAndSleep(Ramp(p, a, b, n, pause, s - 1), Blend(a, b, s, n), p.follow, pause);
      BlendsNext(a, b, n, s);
      ProductNext(s, pause);
    }
  }

  lemma BlendAll(a: Pose, b: Pose, n: nat)
    requires n >= 1
    ensures Blend(a, b, n, n) == b
  {
    forall j | 0 <= j < DOF ensures Blend(a, b, n, n)[j] == b[j] {
      ShareAll(b[j] - a[j], n);
    }
  }

  /** The time of a move: its interval, or as many minimum pauses as it has segments if that is longer. */
  function MoveTime(p: Params, a: Pose, b: Pose, dt: real): (time: real)
    requires Usable(p) && dt >= 0.0
    ensures time >= dt
  {
    if dt == 0.0 then 0.0 else Max(dt, Product(Segments(p, a, b, dt) as real, p.minDt))
  }

  lemma PausesFill(p: Params, dt: real, n: nat)
    requires n >= 1
    ensures Product(n as real, Pause(p, dt, n)) == Max(dt, Product(n as real, p.minDt))
  {
    var m, q := n as real, Quotient(dt, n as real);
    assert q * m == dt;
    if p.minDt < q {
      assert m * (q - p.minDt) > 0.0;
    } else {
      assert m * (p.minDt - q) >= 0.0;
    }
  }

  /** A move publishes its blends, the last of which is the waypoint, ends nothing, and sleeps exactly its time. */
  lemma MoveAmounts(p: Params, a: Pose, b: Pose, dt: real)
    requires Usable(p) && dt >= 0.0
    ensures var n := Segments(p, a, b, dt);
            Commands(Move(p, a, b, dt)) == Blends(a, b, n, n) && Blends(a, b, n, n)[n - 1] == b
    ensures TotalSleep(Move(p, a, b, dt)) == MoveTime(p, a, b, dt)
    ensures Terminals(Move(p, a, b, dt)) == 0
  {
    var n := Segments(p, a, b, dt);
    BlendAll(a, b, n);
    if p.interp && dt > 0.0 {
      RampCommands(p, a, b, n, Pause(p, dt, n), n);
      PausesFill(p, dt, n);
    } else {
      var e := Publish(b, p.follow);
      assert [e][..0] == [];
      OneEvent([e], Sleep(Max(p.minDt, dt)));
      assert [Sleep(Max(p.minDt, dt))][..0] == [];
      assert [e] + [] == [e];
      assert Blends(a, b, 1, 1) == [b];
    }
  }

  lemma {:induction false} RampAt(p: Params, a: Pose, b: Pose, n: nat, pause: real, m: nat, s: nat)
    requires n >= 1 && s < m
    ensures var ramp := Ramp(p, a, b, n, pause, m);
            && |ramp| == 2 * m
            && ramp[2 * s] == Publish(Blend(a, b, s + 1, n), p.follow) && ramp[2 * s + 1] == Sleep(pause)
  {
    if s < m - 1 {
      RampAt(p, a, b, n, pause, m - 1, s);
    } else if m > 1 {
      RampAt(p, a, b, n, pause, m - 1, 0);
    }
  }

  lemma EqualParts(p: Params, dt: real, n: nat)
    requires n >= 1
    ensures Pause(p, dt, n) == Quotient(Max(dt, Product(n as real, p.minDt)), n as real)
  {
    PausesFill(p, dt, n);
    assert Product(n as real, Pause(p, dt, n)) / n as real == Pause(p, dt, n);
  }

  /** An interpolated move alternates commands and sleeps, one pair for each segment, and each sleep is the
      same part of its time. */
  lemma MoveInSegments(p: Params, a: Pose, b: Pose, dt: real, s: nat)
    requires Usable(p) && p.interp && dt > 0.0 && s < Segments(p, a, b, dt)
    ensures var n := Segments(p, a, b, dt);
            && |Move(p, a, b, dt)| == 2 * n
            && Move(p, a, b, dt)[2 * s] == Publish(Blend(a, b, s + 1, n), p.follow)
            && Move(p, a, b, dt)[2 * s + 1] == Sleep(Quotient(MoveTime(p, a, b, dt), n as real))
  {
    var n := Segments(p, a, b, dt);
    RampAt(p, a, b, n, Pause(p, dt, n), n, s);
    EqualParts(p, dt, n);
  }

  /** n segments are enough for the step limit, if it is not negligible, and for the command rate. */
  predicate Enough(p: Params, a: Pose, b: Pose, dt: real, n: nat) {
    && n >= 1
    && (p.maxStep > 0.000000001 ==> MaxDelta(a, b, DOF) <= Product(p.maxStep, n as real))
    && Product(dt, p.rate) <= n as real
  }

  lemma CeilIff(d: real, m: real, n: nat)
    requires m > 0.0
    ensures Ceil(Quotient(d, m)) <= n <==> d <= Product(m, n as real)
  {
    var q := Quotient(d, m);
    assert q * m == d;
    if q <= n as real {
      assert (n as real - q) * m >= 0.0;
    } else {
      assert (q - n as real) * m > 0.0;
    }
  }

  /** An interpolated move is cut into the fewest segments that are enough. */
  lemma FewestSegments(p: Params, a: Pose, b: Pose, dt: real, n: nat)
    requires Usable(p) && p.interp && dt > 0.0
    ensures Enough(p, a, b, dt, n) <==> Segments(p, a, b, dt) <= n
  {
    CeilIff(MaxDelta(a, b, DOF), p.maxStep, n);
  }

  // ------------------------------------------------------------------ steps between commands

  predicate Near(a: seq<real>, b: seq<real>, m: real) {
    |a| == |b| == DOF && forall j | 0 <= j < DOF :: Abs(b[j] - a[j]) <= m
  }

  predicate Adjacent(cmds: seq<seq<real>>, m: real) {
    forall i | 0 < i < |cmds| :: Near(cmds[i - 1], cmds[i], m)
  }

  lemma NearIff(a: Pose, b: Pose, m: real)
    requires m >= 0.0
    ensures Near(a, b, m) <==> MaxDelta(a, b, DOF) <= m
  {
    var d := MaxDelta(a, b, DOF);
    MaxDeltaIsMax(a, b, DOF);
    if Near(a, b, m) && d > 0.0 {
      var j :| 0 <= j < DOF && Abs(b[j] - a[j]) == d;
    }
  }

  /** The distance fits n steps of m. */
  predicate Fits(a: Pose, b: Pose, n: nat, m: real) {
    MaxDelta(a, b, DOF) <= Product(m, n as real)
  }

  lemma ProductGrows(m: real, n: nat)
    requires m > 0.0 && n >= 1
    ensures Product(m, n as real) >= m
    ensures n == 1 ==> Product(m, n as real) == m
  {
    NonNegative(m, n as real - 1.0);
    assert m * (n as real - 1.0) == m * n as real - m;
  }

  lemma BlendStep(a: Pose, b: Pose, s: nat, n: nat, m: real)
    requires n >= 1 && s >= 1 && m > 0.0
    ensures Near(Blend(a, b, s - 1, n), Blend(a, b, s, n), m) <==> Fits(a, b, n, m)
  {
    var limit := Product(m, n as real);
    ProductGrows(m, n);
    var x, y := Blend(a, b, s - 1, n), Blend(a, b, s, n);
    forall j | 0 <= j < DOF
      ensures Abs(y[j] - x[j]) <= m <==> Abs(b[j] - a[j]) <= limit
    {
      ShareNext(b[j] - a[j], s, n);
      QuotientBound(b[j] - a[j], m, n);
    }
    assert Near(x, y, m) <==> Near(a, b, limit);
    NearIff(a, b, limit);
  }

  lemma BlendNone(a: Pose, b: Pose, n: nat)
    requires n >= 1
    ensures Blend(a, b, 0, n) == a
  {
    forall j | 0 <= j < DOF ensures Blend(a, b, 0, n)[j] == a[j] {
      ShareAll(b[j] - a[j], n);
    }
  }

  /** Continuing from a, the blends towards b keep the bound exactly if the distance fits the segments. */
  lemma BlendsAdjacentIff(a: Pose, b: Pose, n: nat, m: real)
    requires n >= 1 && m > 0.0
    ensures Adjacent([a] + Blends(a, b, n, n), m) <==> Fits(a, b, n, m)
  {
    var chain := [a] + Blends(a, b, n, n);
    BlendNone(a, b, n);
    forall i | 0 < i < |chain| ensures Near(chain[i - 1], chain[i], m) <==> Fits(a, b, n, m) {
      BlendStep(a, b, i, n, m);
      assert chain[i] == Blend(a, b, i, n) && chain[i - 1] == Blend(a, b, i - 1, n);
    }
    if Adjacent(chain, m) {
      assert Near(chain[0], chain[1], m);
    }
  }

  lemma AdjacentJoin(s: seq<seq<real>>, t: seq<seq<real>>, m: real)
    requires |s| > 0
    ensures Adjacent(s + t, m) <==> Adjacent(s, m) && Adjacent([s[|s| - 1]] + t, m)
  {
    var u, v := s + t, [s[|s| - 1]] + t;
    if Adjacent(u, m) {
      forall i | 0 < i < |s| ensures Near(s[i - 1], s[i], m) {
        assert u[i - 1] == s[i - 1] && u[i] == s[i];
      }
      forall i | 0 < i < |v| ensures Near(v[i - 1], v[i], m) {
        assert v[i - 1] == u[|s| + i - 2] && v[i] == u[|s| + i - 1];
      }
    }
    if Adjacent(s, m) && Adjacent(v, m) {
      forall i | 0 < i < |u| ensures Near(u[i - 1], u[i], m) {
        if i < |s| {
          assert u[i - 1] == s[i - 1] && u[i] == s[i];
        } else {
          assert u[i - 1] == v[i - |s|] && u[i] == v[i - |s| + 1];
        }
      }
    }
  }

  // ------------------------------------------------------------------ a whole walk

  function MoveBlends(p: Params, stops: seq<Stop>, k: nat): (r: seq<seq<real>>)
    requires Usable(p) && 1 <= k < |stops|
    ensures |r| >= 1
  {
    var n := Segments(p, stops[k - 1].pose, stops[k].pose, Dt(stops, k));
    Blends(stops[k - 1].pose, stops[k].pose, n, n)
  }

  /** The commands of the first k stops: the first pose, then move by move the blends. */
  function Plan(p: Params, stops: seq<Stop>, k: nat): seq<seq<real>>
    requires Usable(p) && k <= |stops|
  {
    if k == 0 then []
    else if k == 1 then [stops[0].pose]
    else Plan(p, stops, k - 1) + MoveBlends(p, stops, k - 1)
  }

  /** How many commands the first k stops publish. */
  function Published(p: Params, stops: seq<Stop>, k: nat): nat
    requires Usable(p) && k <= |stops|
  {
    |Plan(p, stops, k)|
  }

  lemma WalkNext(p: Params, stops: seq<Stop>, k: nat)
    requires Usable(p) && 2 <= k <= |stops|
    ensures Commands(Walk(p, stops, k)) == Commands(Walk(p, stops, k - 1)) + MoveBlends(p, stops, k - 1)
    ensures TotalSleep(Walk(p, stops, k))
            == TotalSleep(Walk(p, stops, k - 1))
               + MoveTime(p, stops[k - 2].pose, stops[k - 1].pose, Dt(stops, k - 1))
    ensures Terminals(Walk(p, stops, k)) == Terminals(Walk(p, stops, k - 1))
  {
    var a, b, dt := stops[k - 2].pose, stops[k - 1].pose, Dt(stops, k - 1);
    CommandsAdd(Walk(p, stops, k - 1), Move(p, a, b, dt));
    SleepAdds(Walk(p, stops, k - 1), Move(p, a, b, dt));
    TerminalsAdd(Walk(p, stops, k - 1), Move(p, a, b, dt));
    MoveAmounts(p, a, b, dt);
  }

  lemma WalkFirst(p: Params, stops: seq<Stop>)
    requires Usable(p) && 1 <= |stops|
    ensures Commands(Walk(p, stops, 1)) == [stops[0].pose]
    ensures TotalSleep(Walk(p, stops, 1)) == Dt(stops, 0)
    ensures Terminals(Walk(p, stops, 1)) == 0
  {
    var e, dt := Publish(stops[0].pose, p.follow), Dt(stops, 0);
    assert [e][..0] == [] && [Sleep(dt)][..0] == [] && [e] + [] == [e];
    OneEvent([e], Sleep(dt));
  }

  /** A walk publishes its plan and ends nothing. */
  lemma {:induction false} WalkPublishesPlan(p: Params, stops: seq<Stop>, k: nat)
    requires Usable(p) && k <= |stops|
    ensures Commands(Walk(p, stops, k)) == Plan(p, stops, k)
    ensures Terminals(Walk(p, stops, k)) == 0
    decreases k
  {
    if k == 1 {
      WalkFirst(p, stops);
    } else if k > 1 {
      WalkPublishesPlan(p, stops, k - 1);
      WalkNext(p, stops, k);
    }
  }

  lemma MoveEndsAtWaypoint(p: Params, stops: seq<Stop>, k: nat)
    requires Usable(p) && 1 <= k < |stops|
    ensures MoveBlends(p, stops, k)[|MoveBlends(p, stops, k)| - 1] == stops[k].pose
  {
    BlendAll(stops[k - 1].pose, stops[k].pose, |MoveBlends(p, stops, k)|);
  }

  /** The k-th waypoint is published exactly, as the last command of the first k stops. */
  lemma HitsWaypoints(p: Params, stops: seq<Stop>, k: nat)
    requires Usable(p) && 1 <= k <= |stops|
    ensures Published(p, stops, k - 1) < Published(p, stops, k)
    ensures Plan(p, stops, k)[Published(p, stops, k) - 1] == stops[k - 1].pose
    ensures Plan(p, stops, k - 1) <= Plan(p, stops, k)
  {
    if k > 1 {
      MoveEndsAtWaypoint(p, stops, k - 1);
    }
  }

  /** A plan shows every waypoint exactly, at increasing places, the last one at its end. */
  lemma {:induction false} WaypointsInOrder(p: Params, stops: seq<Stop>, i: nat, k: nat)
    requires Usable(p) && i < k <= |stops|
    ensures Published(p, stops, i) < Published(p, stops, i + 1) <= Published(p, stops, k)
    ensures Plan(p, stops, k)[Published(p, stops, i + 1) - 1] == stops[i].pose
    decreases k
  {
    HitsWaypoints(p, stops, k);
    if i + 1 < k {
      WaypointsInOrder(p, stops, i, k - 1);
    }
  }

  lemma BlendBetween(p: Params, stops: seq<Stop>, k: nat, i: nat, j: nat)
    requires Usable(p) && 1 <= k < |stops| && i < |MoveBlends(p, stops, k)| && j < DOF
    ensures var x, a, b := MoveBlends(p, stops, k)[i], stops[k - 1].pose[j], stops[k].pose[j];
            |x| == DOF && (a <= x[j] <= b || b <= x[j] <= a)
  {
    var a, b := stops[k - 1].pose, stops[k].pose;
    ShareBetween(b[j] - a[j], i + 1, Segments(p, a, b, Dt(stops, k)));
  }

  /** Between two waypoints no joint leaves their interval. */
  lemma StaysBetween(p: Params, stops: seq<Stop>, k: nat, i: nat, j: nat)
    requires Usable(p) && 2 <= k <= |stops|
    requires Published(p, stops, k - 1) <= i < Published(p, stops, k) && j < DOF
    ensures var x, a, b := Plan(p, stops, k)[i], stops[k - 2].pose[j], stops[k - 1].pose[j];
            |x| == DOF && (a <= x[j] <= b || b <= x[j] <= a)
  {
    BlendBetween(p, stops, k - 1, i - Published(p, stops, k - 1), j);
  }

  /** What keeps one move within the step limit. */
  predicate Smooth(p: Params, a: Pose, b: Pose, dt: real) {
    var delta := MaxDelta(a, b, DOF);
    || delta <= p.maxStep
    || (p.interp && dt > 0.0
        && (p.maxStep > 0.000000001 || delta <= Product(p.maxStep, Ceil(Product(dt, p.rate)) as real)))
  }

  lemma CutsByRate(p: Params, dt: real)
    requires Usable(p) && dt > 0.0
    ensures Ceil(Product(dt, p.rate)) >= 1
  {
    assert dt * p.rate > 0.0;
  }

  lemma SmoothIff(p: Params, a: Pose, b: Pose, dt: real)
    requires Usable(p)
    ensures Smooth(p, a, b, dt) <==> Fits(a, b, Segments(p, a, b, dt), p.maxStep)
  {
    var delta, n := MaxDelta(a, b, DOF), Segments(p, a, b, dt);
    ProductGrows(p.maxStep, n);
    if p.interp && dt > 0.0 {
      CutsByRate(p, dt);
      if p.maxStep > 0.000000001 {
        CeilCovers(delta, p.maxStep, n);
      } else {
        assert n == Ceil(Product(dt, p.rate));
      }
    }
  }

  predicate SmoothAt(p: Params, stops: seq<Stop>, k: nat)
    requires 1 <= k < |stops|
  {
    Smooth(p, stops[k - 1].pose, stops[k].pose, Dt(stops, k))
  }

  lemma MoveSmoothIff(p: Params, stops: seq<Stop>, k: nat)
    requires Usable(p) && 1 <= k < |stops|
    ensures Adjacent([stops[k - 1].pose] + MoveBlends(p, stops, k), p.maxStep) <==> SmoothAt(p, stops, k)
  {
    var a, b, dt := stops[k - 1].pose, stops[k].pose, Dt(stops, k);
    BlendsAdjacentIff(a, b, Segments(p, a, b, dt), p.maxStep);
    SmoothIff(p, a, b, dt);
  }

  /** Every two consecutive commands differ by at most the maximum step in each joint exactly if every
      move is short, or is interpolated over a positive interval with a step limit above 1e-9 (or a
      command rate that cuts it finely enough). */
  lemma {:induction false} StepBoundIff(p: Params, stops: seq<Stop>, k: nat)
    requires Usable(p) && 1 <= k <= |stops|
    ensures Adjacent(Plan(p, stops, k), p.maxStep) <==> forall i: nat | 1 <= i < k :: SmoothAt(p, stops, i)
    decreases k
  {
    if k > 1 {
      StepBoundIff(p, stops, k - 1);
      HitsWaypoints(p, stops, k - 1);
      AdjacentJoin(Plan(p, stops, k - 1), MoveBlends(p, stops, k - 1), p.maxStep);
      MoveSmoothIff(p, stops, k - 1);
    }
  }

  function Elapsed(stops: seq<Stop>, k: nat): real
    requires k <= |stops|
  {
    if k == 0 then 0.0 else Elapsed(stops, k - 1) + Dt(stops, k - 1)
  }

  lemma {:induction false} ElapsedReaches(stops: seq<Stop>, k: nat, i: nat)
    requires i < k <= |stops|
    ensures Elapsed(stops, k) >= stops[i].time
    decreases k
  {
    if k > 1 {
      ElapsedReaches(stops, k - 1, if i == k - 1 then k - 2 else i);
    }
  }

  /** The time of the way to the first stop, then move by move the times of the moves. */
  function WalkTime(p: Params, stops: seq<Stop>, k: nat): real
    requires Usable(p) && k <= |stops|
  {
    if k == 0 then 0.0
    else if k == 1 then Dt(stops, 0)
    else WalkTime(p, stops, k - 1) + MoveTime(p, stops[k - 2].pose, stops[k - 1].pose, Dt(stops, k - 1))
  }

  lemma {:induction false} SleepsExactly(p: Params, stops: seq<Stop>, k: nat)
    requires Usable(p) && k <= |stops|
    ensures TotalSleep(Walk(p, stops, k)) == WalkTime(p, stops, k)
    decreases k
  {
    if k == 1 {
      WalkFirst(p, stops);
    } else if k > 1 {
      SleepsExactly(p, stops, k - 1);
      WalkNext(p, stops, k);
    }
  }

  /** The minimum pause does not stretch the move to stop i. */
  predicate Unstretched(p: Params, stops: seq<Stop>, i: nat)
    requires Usable(p) && 1 <= i < |stops|
  {
    var dt := Dt(stops, i);
    dt > 0.0 ==> Product(Segments(p, stops[i - 1].pose, stops[i].pose, dt) as real, p.minDt) <= dt
  }

  /** A walk takes at least the time of its intervals, and exactly that if the minimum pause stretches no move. */
  lemma {:induction false} OnTimeIff(p: Params, stops: seq<Stop>, k: nat)
    requires Usable(p) && k <= |stops|
    ensures WalkTime(p, stops, k) >= Elapsed(stops, k)
    ensures WalkTime(p, stops, k) == Elapsed(stops, k) <==> forall i: nat | 1 <= i < k :: Unstretched(p, stops, i)
    decreases k
  {
    if k > 1 {
      OnTimeIff(p, stops, k - 1);
      assert MoveTime(p, stops[k - 2].pose, stops[k - 1].pose, Dt(stops, k - 1)) == Dt(stops, k - 1)
             <==> Unstretched(p, stops, k - 1);
    }
  }

  /** For times that do not fall, and are not negative, the intervals add up to the last of them. */
  lemma {:induction false} ElapsedIsLast(stops: seq<Stop>, k: nat)
    requires 1 <= k <= |stops| && stops[0].time >= 0.0
    requires forall i | 1 <= i < k :: stops[i - 1].time <= stops[i].time
    ensures Elapsed(stops, k) == stops[k - 1].time
    decreases k
  {
    if k > 1 {
      ElapsedIsLast(stops, k - 1);
    }
  }

  /** A walk sleeps at least as long as the time of each of its stops, in whatever order they come. */
  lemma SleepsLongEnough(p: Params, stops: seq<Stop>, k: nat, i: nat)
    requires Usable(p) && i < k <= |stops|
    ensures TotalSleep(Walk(p, stops, k)) >= stops[i].time
  {
    SleepsExactly(p, stops, k);
    OnTimeIff(p, stops, k);
    ElapsedReaches(stops, k, i);
  }

  // ------------------------------------------------------------------ the action

  /** The number of points before the first malformed one. */
  function Sound(traj: Trajectory, k: nat): (n: nat)
    requires k <= |traj.points| && AllWellFormed(traj, k)
    ensures k <= n <= |traj.points| && AllWellFormed(traj, n)
    ensures n < |traj.points| ==> !WellFormed(traj, n)
    decreases |traj.points| - k
  {
    if k == |traj.points| || !WellFormed(traj, k) then k else Sound(traj, k + 1)
  }

  predicate Accepted(hasPublisher: bool, traj: Trajectory) {
    hasPublisher && |traj.points| > 0 && |traj.names| > 0 && Complete(traj.names)
  }

  /** The part of the trajectory that is carried out. */
  function SoundStops(traj: Trajectory): seq<Stop>
    requires Complete(traj.names)
  {
    Stops(traj, Sound(traj, 0))
  }

  function Carried(params: Params, traj: Trajectory): seq<Event>
    requires Complete(traj.names)
  {
    Walk(Effective(params), SoundStops(traj), |SoundStops(traj)|)
  }

  function Outcome(hasPublisher: bool, params: Params, traj: Trajectory): (seq<Event>, Code) {
    if !hasPublisher || |traj.points| == 0 || |traj.names| == 0 then ([Abort], INVALID_GOAL)
    else if !Complete(traj.names) then ([Abort], INVALID_JOINTS)
    else if Sound(traj, 0) < |traj.points| then (Carried(params, traj) + [Abort], INVALID_GOAL)
    else (Carried(params, traj) + [Succeed], SUCCESSFUL)
  }

  /** Each run makes exactly one terminal call, as its last act, and it is succeed exactly for a
      successful result. */
  lemma OneTerminal(hasPublisher: bool, params: Params, traj: Trajectory)
    ensures var (trace, code) := Outcome(hasPublisher, params, traj);
            && Terminals(trace) == 1
            && |trace| > 0
            && trace[|trace| - 1] == (if code.SUCCESSFUL? then Succeed else Abort)
            && (code.SUCCESSFUL? <==> Accepted(hasPublisher, traj) && AllWellFormed(traj, |traj.points|))
  {
    assert [Abort][..0] == [] && [Succeed][..0] == [];
    if Accepted(hasPublisher, traj) {
      var stops := SoundStops(traj);
      WalkPublishesPlan(Effective(params), stops, |stops|);
      OneEvent(Carried(params, traj), Abort);
      OneEvent(Carried(params, traj), Succeed);
    }
  }

  /** Why a run does not succeed: without a publisher, points or names, or at a malformed point, the goal is invalid;
      else without one of the arm's joints the joints are.  Unless it is for a malformed point, nothing is done. */
  lemma RefusedIff(hasPublisher: bool, params: Params, traj: Trajectory)
    ensures var (trace, code) := Outcome(hasPublisher, params, traj);
            var nothing := !hasPublisher || |traj.points| == 0 || |traj.names| == 0;
            var missing := exists j: nat :: j < 6 && ARM_JOINTS[j] !in traj.names;
            && (code.INVALID_JOINTS? <==> !nothing && missing)
            && (code.INVALID_GOAL? <==> nothing || (!missing && !AllWellFormed(traj, |traj.points|)))
            && (nothing || missing ==> trace == [Abort])
  {
    if Accepted(hasPublisher, traj) && Sound(traj, 0) < |traj.points| {
      assert !WellFormed(traj, Sound(traj, 0));
    }
  }

  lemma SucceedAdds(trace: seq<Event>)
    ensures Commands(trace + [Succeed]) == Commands(trace) && TotalSleep(trace + [Succeed]) == TotalSleep(trace)
  {
    assert (trace + [Succeed])[..|trace|] == trace;
  }

  lemma {:induction false} SoundIs(traj: Trajectory, k: nat, n: nat)
    requires k <= n <= |traj.points| && AllWellFormed(traj, n) && (n < |traj.points| ==> !WellFormed(traj, n))
    ensures AllWellFormed(traj, k) && Sound(traj, k) == n
    decreases n - k
  {
    if k < n {
      SoundIs(traj, k + 1, n);
      assert WellFormed(traj, k);
    }
  }

  lemma SuccessfulOutcome(hasPublisher: bool, params: Params, traj: Trajectory)
    requires Accepted(hasPublisher, traj) && AllWellFormed(traj, |traj.points|)
    ensures SoundStops(traj) == Stops(traj, |traj.points|)
    ensures Outcome(hasPublisher, params, traj) == (Carried(params, traj) + [Succeed], SUCCESSFUL)
  {
    SoundIs(traj, 0, |traj.points|);
  }

  /** A successful run, which by OneTerminal is one over an accepted trajectory of well-formed points,
      published its plan over all waypoints; by WaypointsInOrder every one of them, in order, the last one
      last. */
  lemma SuccessPublishesPlan(hasPublisher: bool, params: Params, traj: Trajectory)
    requires Accepted(hasPublisher, traj) && AllWellFormed(traj, |traj.points|)
    ensures Outcome(hasPublisher, params, traj).1.SUCCESSFUL?
    ensures Commands(Outcome(hasPublisher, params, traj).0)
            == Plan(Effective(params), Stops(traj, |traj.points|), |traj.points|)
  {
    SuccessfulOutcome(hasPublisher, params, traj);
    SucceedAdds(Carried(params, traj));
    WalkPublishesPlan(Effective(params), SoundStops(traj), |SoundStops(traj)|);
  }

  /** It slept the times of its moves, which is at least the largest time_from_start. */
  lemma SuccessTakesItsTime(hasPublisher: bool, params: Params, traj: Trajectory, i: nat)
    requires Accepted(hasPublisher, traj) && AllWellFormed(traj, |traj.points|) && i < |traj.points|
    ensures Outcome(hasPublisher, params, traj).1.SUCCESSFUL?
    ensures var stops := Stops(traj, |traj.points|);
            TotalSleep(Outcome(hasPublisher, params, traj).0) == WalkTime(Effective(params), stops, |stops|)
    ensures TotalSleep(Outcome(hasPublisher, params, traj).0)
            >= traj.points[i].sec as real + traj.points[i].nanosec as real / 1000000000.0
  {
    SuccessfulOutcome(hasPublisher, params, traj);
    SucceedAdds(Carried(params, traj));
    SleepsExactly(Effective(params), SoundStops(traj), |SoundStops(traj)|);
    SleepsLongEnough(Effective(params), SoundStops(traj), |SoundStops(traj)|, i);
  }

  /** Successful runs over times that do not fall last until the last of them, exactly if the minimum pause
      stretches no move. */
  lemma SuccessOnTimeIff(hasPublisher: bool, params: Params, traj: Trajectory)
    requires Accepted(hasPublisher, traj) && AllWellFormed(traj, |traj.points|) && Time(traj.points[0]) >= 0.0
    requires forall i | 1 <= i < |traj.points| :: Time(traj.points[i - 1]) <= Time(traj.points[i])
    ensures var stops := Stops(traj, |traj.points|);
            var last := traj.points[|traj.points| - 1];
            TotalSleep(Outcome(hasPublisher, params, traj).0) == last.sec as real + last.nanosec as real / 1000000000.0
            <==> forall i: nat | 1 <= i < |stops| :: Unstretched(Effective(params), stops, i)
  {
    var stops := Stops(traj, |traj.points|);
    SuccessTakesItsTime(hasPublisher, params, traj, 0);
    ElapsedIsLast(stops, |stops|);
    OnTimeIff(Effective(params), stops, |stops|);
  }

  /** Commands say the follow mode asked for, and nobody sleeps but after a command. */
  predicate Paced(trace: seq<Event>, follow: bool) {
    forall i | 0 <= i < |trace| ::
      || (trace[i].Publish? && trace[i].follow == follow)
      || (trace[i].Sleep? && i > 0 && trace[i - 1].Publish?)
  }

  lemma PacedJoin(s: seq<Event>, t: seq<Event>, follow: bool)
    requires Paced(s, follow) && Paced(t, follow)
    ensures Paced(s + t, follow)
  {
    forall i | |s| <= i < |s + t| && (s + t)[i].Sleep? ensures i > 0 && (s + t)[i - 1].Publish? {
      assert t[i - |s|].Sleep?;
      assert (s + t)[i - 1] == t[i - |s| - 1];
    }
  }

  lemma {:induction false} RampPaced(p: Params, a: Pose, b: Pose, n: nat, pause: real, s: nat)
    requires n >= 1
    ensures Paced(Ramp(p, a, b, n, pause, s), p.follow)
  {
    if s > 0 {
      RampPaced(p, a, b, n, pause, s - 1);
      PacedJoin(Ramp(p, a, b, n, pause, s - 1), [Publish(Blend(a, b, s, n), p.follow), Sleep(pause)], p.follow);
    }
  }

  lemma {:induction false} WalkPaced(p: Params, stops: seq<Stop>, k: nat)
    requires Usable(p) && k <= |stops|
    ensures Paced(Walk(p, stops, k), p.follow)
    decreases k
  {
    if k > 1 {
      var a, b, dt := stops[k - 2].pose, stops[k - 1].pose, Dt(stops, k - 1);
      WalkPaced(p, stops, k - 1);
      if p.interp && dt > 0.0 {
        var n := Segments(p, a, b, dt);
        RampPaced(p, a, b, n, Pause(p, dt, n), n);
      }
      PacedJoin(Walk(p, stops, k - 1), Move(p, a, b, dt), p.follow);
    }
  }

  /** Every run alternates commands in the follow mode asked for with sleeps, up to its terminal call. */
  lemma RunsPaced(hasPublisher: bool, params: Params, traj: Trajectory)
    ensures var trace := Outcome(hasPublisher, params, traj).0;
            |trace| > 0 && Paced(trace[..|trace| - 1], params.follow)
  {
    var trace := Outcome(hasPublisher, params, traj).0;
    if Accepted(hasPublisher, traj) {
      WalkPaced(Effective(params), SoundStops(traj), |SoundStops(traj)|);
      assert trace[..|trace| - 1] == Carried(params, traj);
    }
  }

  /** A parameter that is not positive counts as 50 commands a second, 0.02 rad or 10 ms. */
  lemma Defaults(hasPublisher: bool, params: Params, traj: Trajectory)
    ensures params.rate <= 0.0 ==>
              Outcome(hasPublisher, params, traj) == Outcome(hasPublisher, params.(rate := 50.0), traj)
    ensures params.maxStep <= 0.0 ==>
              Outcome(hasPublisher, params, traj) == Outcome(hasPublisher, params.(maxStep := 0.02), traj)
    ensures params.minDt <= 0.0 ==>
              Outcome(hasPublisher, params, traj) == Outcome(hasPublisher, params.(minDt := 0.01), traj)
  {
    var e := Effective(params);
    assert params.rate <= 0.0 ==> Effective(params.(rate := 50.0)) == e;
    assert params.maxStep <= 0.0 ==> Effective(params.(maxStep := 0.02)) == e;
    assert params.minDt <= 0.0 ==> Effective(params.(minDt := 0.01)) == e;
  }

  function Prefix(traj: Trajectory, n: nat): Trajectory
    requires n <= |traj.points|
  {
    Trajectory(traj.names, traj.points[..n])
  }

  /** A run aborted at a malformed point did exactly what the trajectory cut before that point does, apart
      from how it ends; at a malformed first point it did nothing else than abort. */
  lemma AbortedIsPrefix(hasPublisher: bool, params: Params, traj: Trajectory, n: nat)
    requires Accepted(hasPublisher, traj) && n < |traj.points| && AllWellFormed(traj, n) && !WellFormed(traj, n)
    ensures Outcome(hasPublisher, params, traj) == (Carried(params, Prefix(traj, n)) + [Abort], INVALID_GOAL)
    ensures n == 0 ==> Outcome(hasPublisher, params, traj) == ([Abort], INVALID_GOAL)
    ensures n > 0 ==>
              var cut := Outcome(hasPublisher, params, Prefix(traj, n));
              cut.1.SUCCESSFUL? && cut.0 == Carried(params, Prefix(traj, n)) + [Succeed]
  {
    var cut := Prefix(traj, n);
    forall i: nat | i < n ensures WellFormed(cut, i) {
      assert WellFormed(traj, i);
    }
    SoundIs(traj, 0, n);
    SoundIs(cut, 0, n);
    assert SoundStops(traj) == SoundStops(cut);
    assert [] + [Abort] == [Abort];
  }

  // ------------------------------------------------------------------ the callback

  /** The interpolated branch. */
  method Interpolate(p: Params, a: Pose, b: Pose, dt: real) returns (trace: seq<Event>)
    requires Usable(p) && p.interp && dt > 0.0
    ensures trace == Move(p, a, b, dt)
  {
    var maxDelta := LargestDelta(a, b);
    var byStep := if p.maxStep > 0.000000001 then Ceil(Quotient(maxDelta, p.maxStep)) else 1;
    var byRate := Ceil(Product(dt, p.rate));
    var segments: nat := MaxInt(MaxInt(1, byStep), byRate);
    var pause := Pause(p, dt, segments);
    trace := [];
    for s := 1 to segments + 1
      invariant trace == Ramp(p, a, b, segments, pause, s - 1)
    {
      trace := trace + [Publish(Blend(a, b, s, segments), p.follow), Sleep(pause)];
    }
  }

  method MoveTo(p: Params, a: Pose, b: Pose, dt: real) returns (trace: seq<Event>)
    requires Usable(p)
    ensures trace == Move(p, a, b, dt)
  {
    if p.interp && dt > 0.0 {
      trace := Interpolate(p, a, b, dt);
    } else {
      trace := [Publish(b, p.follow)];
      if dt > 0.0 {
        trace := trace + [Sleep(Max(p.minDt, dt))];
      }
    }
  }

  /** What the loop does at stop i, coming from the pose prev at the time prevT. */
  method Visit(p: Params, ghost stops: seq<Stop>, i: nat, prev: seq<real>, prevT: real, target: Pose, t: real)
    returns (trace: seq<Event>)
    requires Usable(p) && i < |stops| && stops[i] == Stop(target, t)
    requires if i == 0 then prevT == 0.0 else prev == stops[i - 1].pose && prevT == stops[i - 1].time
    ensures Walk(p, stops, i + 1) == Walk(p, stops, i) + trace
  {
    var dt := Max(0.0, t - prevT);
    if i == 0 {
      trace := First(p, target, dt);
      assert Walk(p, stops, 0) == [];
    } else {
      trace := MoveTo(p, prev, target, dt);
    }
  }

  /** The loop over the points, up to the first malformed one. */
  method CarryOut(p: Params, traj: Trajectory, index: map<string, nat>) returns (trace: seq<Event>, done: nat)
    requires Usable(p) && Complete(traj.names) && Indexes(index, traj.names)
    ensures done == Sound(traj, 0) && trace == Walk(p, SoundStops(traj), done)
  {
    ghost var stops := SoundStops(traj);
    var prev: seq<real>, prevT := [], 0.0;
    trace, done := [], 0;
    while done < |traj.points|
      invariant done <= |traj.points| && AllWellFormed(traj, done) && Sound(traj, done) == Sound(traj, 0) == |stops|
      invariant trace == Walk(p, stops, done)
      invariant if done == 0 then prevT == 0.0 else prev == stops[done - 1].pose && prevT == stops[done - 1].time
    {
      if |traj.points[done].positions| != |traj.names| {
        assert !WellFormed(traj, done);
        return;
      }
      assert WellFormed(traj, done) && AllWellFormed(traj, done + 1);
      var target := PickPose(traj.names, traj.points[done].positions, index);
      var t := Time(traj.points[done]);
      assert stops[done] == StopAt(traj, done);
      var visited := Visit(p, stops, done, prev, prevT, target, t);
      trace := trace + visited;
      prev, prevT := target, t;
      done := done + 1;
    }
  }

  /** execute_arm_trajectory. */
  method Execute(hasPublisher: bool, params: Params, traj: Trajectory) returns (trace: seq<Event>, code: Code)
    ensures (trace, code) == Outcome(hasPublisher, params, traj)
  {
    if !hasPublisher || |traj.points| == 0 || |traj.names| == 0 {
      return [Abort], INVALID_GOAL;
    }
    var index := BuildIndex(traj.names);
    var complete := HasAllJoints(traj.names, index);
    if !complete {
      return [Abort], INVALID_JOINTS;
    }
    var carried, done := CarryOut(Effective(params), traj, index);
    if done < |traj.points| {
      return carried + [Abort], INVALID_GOAL;
    }
    return carried + [Succeed], SUCCESSFUL;
  }
}
