/// The `EventService` component: its session, its one sending routine and
/// its storage file, changed in place by the Unity callbacks, the public
/// `TrackEvent`, and the resumptions of the sending coroutine.  Every method
/// is the matching transition of the Scheduler state machine, and keeps its
/// invariant.
module Service {
  import opened Session
  import opened Scheduler

  class EventService {
    const backupEachNumberOfEvents: int
    const cooldownBeforeSend: int

    /** `session.events`: the pending events, oldest first. */
    var events: seq<EventData>
    /** `sendingRoutine`, with the point where the coroutine is suspended. */
    var sendingRoutine: Phase
    /** The storage file. */
    var storage: Disk
    /** The events the collector has acknowledged, oldest first. */
    ghost var sent: seq<EventData>

    function Settings(): Config
    {
      Config(backupEachNumberOfEvents, cooldownBeforeSend)
    }

    ghost function Abstract(): State
      reads this
    {
      State(events, sendingRoutine, storage, sent)
    }

    ghost predicate Valid()
      reads this
    {
      Inv(Settings(), Abstract())
    }

    /** `Awake` followed by `Start`: the service restores the session from the storage file. */
    constructor (backupEachNumberOfEvents: int, cooldownBeforeSend: int, storage: Disk)
      ensures this.backupEachNumberOfEvents == backupEachNumberOfEvents
      ensures this.cooldownBeforeSend == cooldownBeforeSend
      ensures Valid()
      ensures Abstract() == StartState(Settings(), storage)
    {
      this.backupEachNumberOfEvents := backupEachNumberOfEvents;
      this.cooldownBeforeSend := cooldownBeforeSend;
      this.storage := storage;
      events := [];
      sendingRoutine := Idle;
      sent := [];
      new;
      RestoreSession();
      StartEstablishesInv(Settings(), storage);
    }

    /** `RestoreSession`: a missing file starts empty; otherwise load, then check for unsent events. */
    method RestoreSession()
      requires sendingRoutine == Idle && sent == []
      modifies this
      ensures Abstract() == StartState(Settings(), old(storage))
    {
      if storage.NoFile? {
        events := [];
        return;
      }
      events := Load(storage.text);
      CheckForUnsentEvents();
    }

    /** `StoreSession`: overwrite the file with the pending events. */
    method StoreSession()
      modifies this`storage
      ensures Abstract() == Store(old(Abstract()))
      ensures Restore(storage) == events
    {
      storage := File(Serialize(SessionData(List(events))));
    }

    /** `CheckForUnsentEvents`: start the routine if events are pending and none is running. */
    method CheckForUnsentEvents()
      modifies this`sendingRoutine
      ensures Abstract() == CheckForUnsent(Settings(), old(Abstract()))
    {
      if |events| > 0 && sendingRoutine == Idle {
        sendingRoutine := Debouncing(cooldownBeforeSend);
      }
    }

    /** `TrackEvent(type, data)`. */
    method TrackEvent(eventType: string, data: string)
      requires Valid()
      modifies this
      ensures Valid()
      ensures Abstract() == TrackStep(Settings(), old(Abstract()), EventData(eventType, data))
      ensures events == old(events) + [EventData(eventType, data)]
    {
      ghost var before := Abstract();
      events := events + [EventData(eventType, data)];
      if backupEachNumberOfEvents != 0 && |events| % backupEachNumberOfEvents == 0 {
        StoreSession();
      }
      CheckForUnsentEvents();
      TrackPreservesInv(Settings(), before, EventData(eventType, data));
    }

    /**
     * Time passes while the routine waits out `WaitForSeconds(cooldownBeforeSend)`.
     * When the wait is over the routine resumes: it records how many events
     * it sends and serialises the session, then suspends on the request.
     */
    method AdvanceTime(dt: nat)
      requires Valid()
      modifies this`sendingRoutine
      ensures Valid()
      ensures Abstract() == TickStep(old(Abstract()), dt)
    {
      ghost var before := Abstract();
      if sendingRoutine.Debouncing? {
        var remaining := sendingRoutine.remaining - dt;
        if remaining <= 0 {
          var sendingEventNumber := |events|;
          var json := Serialize(SessionData(List(events)));
          sendingRoutine := Sending(sendingEventNumber, json);
        } else {
          sendingRoutine := Debouncing(remaining);
        }
      }
      TickPreservesInv(Settings(), before, dt);
    }

    /**
     * The request returns and the routine resumes: on success it removes the
     * events it sent; in either case it stores the session, clears itself
     * and checks for events tracked meanwhile.
     */
    method RequestCompleted(success: bool)
      requires Valid() && sendingRoutine.Sending?
      modifies this
      ensures Valid()
      ensures Abstract() == CompleteStep(Settings(), old(Abstract()), success)
      ensures events == if success then old(events)[old(sendingRoutine).count..] else old(events)
    {
      ghost var before := Abstract();
      var Sending(sendingEventNumber, json) := sendingRoutine;
      if success {
        events := events[sendingEventNumber..];
        sent := sent + Load(json);
      }
      StoreSession();
      sendingRoutine := Idle;
      CheckForUnsentEvents();
      CompletePreservesInv(Settings(), before, success);
    }

    /** `OnApplicationQuit`: store the session; an in-flight send is left alone. */
    method OnApplicationQuit()
      requires Valid()
      modifies this`storage
      ensures Valid()
      ensures Abstract() == Store(old(Abstract()))
    {
      StoreSession();
    }

    /** `OnApplicationFocus` (Android): losing focus stores the session. */
    method OnApplicationFocus(hasFocus: bool)
      requires Valid()
      modifies this`storage
      ensures Valid()
      ensures Abstract() == if hasFocus then old(Abstract()) else Store(old(Abstract()))
    {
      if !hasFocus {
        StoreSession();
      }
    }
  }
}
