/** The recovery manager: the only writer of the persisted system state. */
module Recovery {
  import opened Enums
  import opened Outcomes
  import opened ExchangeModel
  import opened Repositories

  function InState(d: Db, state: SystemState): Db {
    d.(settings := d.settings.(state := state))
  }

  /** What a successful start leaves behind. */
  function Started(d: Db): Db {
    d.(settings := d.settings.(tradingEnabled := true, state := Running))
  }

  /** What a boot decides from the persisted rows; `health` matters only if the worker is asked. */
  function BootState(d: Db, health: Reply<bool>): SystemState {
    if HasUnresolved(d) then SystemState.Recovery
    else if d.settings.estop then Stopped
    else if d.settings.state == SystemState.Recovery then SystemState.Recovery
    else if health != Got(true) then SystemState.Recovery
    else if d.settings.tradingEnabled then Running
    else Stopped
  }

  /** A boot never claims RUNNING for a system whose switch is off, whose latch is set, or whose
      orders are unresolved; and it repairs any RUNNING state that a crash left behind. */
  lemma BootIsConservative(d: Db, health: Reply<bool>)
    ensures BootState(d, health) == Running <==>
            && !HasUnresolved(d) && !d.settings.estop && d.settings.tradingEnabled
            && d.settings.state != SystemState.Recovery && health == Got(true)
    ensures BootState(d, health) == SystemState.Recovery <==>
            HasUnresolved(d) || (!d.settings.estop && (d.settings.state == SystemState.Recovery || health != Got(true)))
    ensures BootState(d, health) == Stopped <==>
            && !HasUnresolved(d)
            && (d.settings.estop ||
                (d.settings.state != SystemState.Recovery && health == Got(true) && !d.settings.tradingEnabled))
  {
  }

  class RecoveryManager {
    const store: Store
    const exchange: Exchange

    constructor (store: Store, exchange: Exchange)
      ensures this.store == store && this.exchange == exchange
    {
      this.store := store;
      this.exchange := exchange;
    }

    /** Overwrites the state and commits: everything pending in the session becomes durable with it. */
    method SetState(state: SystemState) returns (r: Await<()>)
      modifies store`db, store`disk, store`trail
      ensures (store.disk == old(store.disk) && store.trail == old(store.trail)) ||
              (store.disk == InState(old(store.db), state) && store.trail == old(store.trail) + [store.disk])
      ensures r.Done? ==> store.db == store.disk == InState(old(store.db), state)
      ensures r.Crashed? ==> store.db == store.disk &&
                             (store.disk == old(store.disk) || store.disk == InState(old(store.db), state))
    {
      store.db := InState(store.db, state);
      r := store.Commit();
    }

    method Bootstrap() returns (r: Await<()>)
      modifies store`db, store`disk, store`trail, exchange
      ensures (store.disk == old(store.disk) && store.trail == old(store.trail)) ||
              store.trail == old(store.trail) + [store.disk]
      ensures Passes(old(exchange.st), exchange.st)
      ensures exchange.heard == old(exchange.heard).(worker := exchange.heard.worker)
      ensures old(exchange.Valid()) ==> exchange.Valid()
      ensures r.Done? ==> store.db == store.disk == InState(old(store.db), BootState(old(store.db), exchange.heard.worker))
      ensures r.Crashed? ==> store.db == store.disk &&
                             (store.disk == old(store.disk) ||
                              store.disk == InState(old(store.db), BootState(old(store.db), exchange.heard.worker)))
    {
      if HasUnresolved(store.db) {
        r := SetState(SystemState.Recovery);
        return;
      }
      if store.db.settings.estop {
        r := SetState(Stopped);
        return;
      }
      if store.db.settings.state == SystemState.Recovery {
        r := SetState(SystemState.Recovery);
        return;
      }
      var connected := exchange.AskWorker();
      var _ :- store.MayCrash();
      if connected.Raised? || !connected.value {
        r := SetState(SystemState.Recovery);
        return;
      }
      if store.db.settings.tradingEnabled {
        r := SetState(Running);
        return;
      }
      r := SetState(Stopped);
    }
  }
}
