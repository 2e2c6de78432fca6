/** The controller as the program has it: global variables, changed by one pass of the main loop. */
module Qosmon {
  import M = QosModel
  import S = QosSafety

  class Monitor {
    const config: M.Config
    var qstate: M.Mode
    var firstflg: bool
    var pingon: bool
    var classcnt: nat
    var nreceived: nat
    var filTriptime: int
    var pinglimit: int
    var dbwUl: int
    var newDbwUl: int
    var savedActiveLimit: int
    var savedRealtimeLimit: int
    var kernel: int

    ghost function St(): M.State
      reads this
    {
      M.State(qstate, firstflg, pingon, classcnt, nreceived, filTriptime, pinglimit,
              dbwUl, newDbwUl, savedActiveLimit, savedRealtimeLimit, kernel)
    }

    constructor (c: M.Config, found: int)
      requires M.Sane(c)
      ensures config == c && St() == M.Start(c, found)
    {
      config := c;
      qstate, firstflg, pingon, classcnt, nreceived := M.Check, true, false, 0, 0;
      filTriptime, pinglimit := 0, c.limitMs * 1000;
      dbwUl := M.Link(c);
      savedRealtimeLimit, savedActiveLimit, newDbwUl := M.Whole(M.Link(c) as real * 0.9),
        M.Whole(M.Link(c) as real * 0.9), M.Whole(M.Link(c) as real * 0.9);
      kernel := found;
    }

    method TcClassModify(rate: int)
      modifies `dbwUl, `kernel
      ensures St() == M.Modify(old(St()), rate)
      ensures dbwUl == rate && (old(kernel) == old(dbwUl) ==> kernel == rate)
    {
      if dbwUl == rate {
        return;
      }
      dbwUl := rate;
      kernel := rate;
    }

    method CheckTarget(i: M.Input)
      modifies this
      ensures St() == M.CheckStep(config, old(St()), i)
      ensures qstate == M.Idle != old(qstate) && newDbwUl != 0 ==> kernel == newDbwUl
    {
      pingon := true;
      if nreceived >= 2 {
        if pinglimit != 0 && !config.add {
          dbwUl := 0;
          TcClassModify(newDbwUl);
          filTriptime := i.trip * 1000;
          qstate := M.Idle;
        } else {
          TcClassModify(1000);
          nreceived := 0;
          qstate := M.Init;
        }
      }
    }

    method Measure(i: M.Input)
      requires M.Sane(config)
      modifies this
      ensures St() == M.InitStep(config, old(St()), i)
    {
      hide M.Whole;
      if nreceived < 10000 / config.period + 1 {
        filTriptime := i.trip * 1000;
      }
      if nreceived > 15000 / config.period + 1 {
        qstate := M.Idle;
        TcClassModify(newDbwUl);
        if config.add {
          pinglimit := M.Whole(pinglimit as real + filTriptime as real * 1.1);
        } else {
          pinglimit := M.Whole(filTriptime as real * 2.0);
        }
        if pinglimit < 10000 {
          pinglimit := 10000;
        }
        if pinglimit > 800000 {
          pinglimit := 800000;
        }
      }
    }

    /** The ping limit of the wanted mode; entering it brings back its saved limit. */
    method ChooseMode(i: M.Input) returns (plimit: int)
      modifies this
      ensures plimit == M.LimitIn(config, old(St()), M.Wanted(config, i))
      ensures St() == M.Entered(old(St()), M.Wanted(config, i))
    {
      if !i.realtime && config.add {
        plimit := 135 * (config.limitMs * 1000) / 100 + pinglimit;
        if qstate != M.Active {
          qstate := M.Active;
          newDbwUl := savedActiveLimit;
          TcClassModify(newDbwUl);
        }
      } else {
        plimit := pinglimit;
        if qstate != M.Realtime {
          qstate := M.Realtime;
          newDbwUl := savedRealtimeLimit;
          TcClassModify(newDbwUl);
        }
      }
    }

    /** Raises or lowers the proposed limit and passes it on. */
    method Adjust(plimit: int)
      requires plimit > 0
      modifies this
      ensures var l := M.Adjusted(config, old(newDbwUl), old(filTriptime), plimit);
        St() == M.Modify(old(St()).(limit := l), l)
    {
      hide M.Whole, M.Change;
      var err := filTriptime - plimit;
      if err < 0 {
        newDbwUl := M.Scaled(newDbwUl, 1.0 - M.Change(0.004, err, config.period, plimit));
        if newDbwUl > M.Link(config) {
          newDbwUl := M.Link(config);
        }
      } else {
        if err > 2 * plimit {
          err := 2 * plimit;
        }
        newDbwUl := M.Scaled(newDbwUl, 1.0 - M.Change(0.005, err, config.period, plimit));
        if (newDbwUl as real) < M.Link(config) as real * 0.15 {
          newDbwUl := M.Whole(M.Link(config) as real * 0.15);
        }
      }
      TcClassModify(newDbwUl);
    }

    method RunStates(i: M.Input)
      requires M.Running(qstate) && M.LimitIn(config, St(), M.Wanted(config, i)) > 0
      modifies this
      ensures St() == M.RunStep(config, old(St()), i)
    {
      hide M.Adjusted, M.Entered, M.LimitIn;
      if qstate == M.Idle {
        pingon := false;
        if (i.load as real) < 0.15 * M.Link(config) as real {
          return;
        }
      }
      pingon := true;
      if qstate == M.Realtime {
        savedRealtimeLimit := newDbwUl;
      }
      if qstate == M.Active {
        savedActiveLimit := newDbwUl;
      }
      assert St() == M.Saved(old(St()).(pingOn := true));
      SameLimit(old(St()), St(), M.Wanted(config, i));
      var plimit := ChooseMode(i);
      assert St().filtered == old(St()).filtered by { EnteredFrame(M.Saved(old(St()).(pingOn := true)), M.Wanted(config, i)); }
      if (i.load as real) < 0.1 * M.Link(config) as real {
        qstate := M.Idle;
      }
      if filTriptime < plimit && (i.load as real) < dbwUl as real * 0.85 {
        return;
      }
      Adjust(plimit);
    }

    lemma SameLimit(s: M.State, t: M.State, m: M.Mode)
      requires s.pingLimit == t.pingLimit
      ensures M.LimitIn(config, s, m) == M.LimitIn(config, t, m)
    {
    }

    static lemma EnteredFrame(s: M.State, m: M.Mode)
      ensures M.Entered(s, m).filtered == s.filtered
    {
    }

    method StateMachine(i: M.Input)
      requires M.Sane(config) && (M.Running(qstate) ==> pinglimit > 0)
      modifies this
      ensures St() == M.Dispatched(config, old(St()), i)
    {
      hide M.CheckStep, M.InitStep, M.RunStep;
      match qstate {
        case Check => CheckTarget(i);
        case Init => Measure(i);
        case _ => RunStates(i);
      }
    }

    /** One pass of the main loop, from the pongs to the end of the state machine. */
    method Pass(i: M.Input)
      requires M.Sane(config) && (M.Running(qstate) ==> pinglimit > 0)
      modifies this
      ensures St() == M.Step(config, old(St()), i)
    {
      hide M.Dispatched, M.Alpha, M.Quotient;
      nreceived := (nreceived + i.pongs) % 65536;
      var cc := classcnt;
      classcnt := i.classes;
      if i.error || (!firstflg && cc != classcnt) {
        firstflg := true;
        pingon := false;
        qstate := M.Check;
        return;
      }
      if pingon {
        filTriptime := M.Quotient((i.trip * 1000 - filTriptime) * M.Alpha(config.period), 1000) + filTriptime;
      }
      StateMachine(i);
      firstflg := false;
    }

    /** The whole run: passes until a signal comes, then the full bandwidth again. */
    method Run(found: int, seen: seq<M.Input>)
      requires M.Sane(config) && S.InputsOk(config, seen) && St() == M.Start(config, found)
      modifies this
      ensures St() == M.Finish(config, S.After(config, found, seen))
      ensures kernel == M.Link(config) || kernel == found
    {
      hide M.Step, M.Start, S.Inv;
      var k := 0;
      assert seen[..0] == [];
      while k < |seen|
        invariant k <= |seen| && St() == S.After(config, found, seen[..k])
      {
        assert seen[..k + 1][..k] == seen[..k];
        CanStep(St(), found);
        Pass(seen[k]);
        k := k + 1;
      }
      assert seen[..k] == seen;
      S.AlwaysSafe(config, found, seen);
      TcClassModify(M.Link(config));
    }

    lemma CanStep(s: M.State, found: int)
      requires S.Inv(config, s, found)
      ensures M.Running(s.mode) ==> s.pingLimit > 0
    {
    }
  }
}
