/**
  The capture manager (backend/internal/capture/manager.go): at most one
  capture session, started, switched and stopped on request. Every public
  method of the source runs under the manager's lock, so each is atomic
  here; the session's goroutine is not run, and its exit, which clears the
  running flag under the same lock, is the separate event CaptureExited.
 */
module CaptureManager {
  import opened Models
  import Capture
  import MemoryStore

  /** The context handed to one session; `Cancel` is its cancel function. */
  class CancelContext {
    var done: bool

    constructor ()
      ensures !done
    {
      done := false;
    }

    method Cancel()
      modifies this
      ensures done
    {
      done := true;
    }
  }

  datatype StartError = StopFailed | CreateFailed(cause: Capture.CaptureError)

  class Manager {
    var currentCapture: Capture.PacketCapture?
    var currentIface: string
    const storage: MemoryStore.MemoryStorage
    var ctx: CancelContext?
    var captureRunning: bool

    ghost predicate Valid()
      reads this, storage
    {
      storage.Valid() && (captureRunning ==> currentCapture != null && ctx != null)
    }

    constructor (storage: MemoryStore.MemoryStorage)
      requires storage.Valid()
      ensures Valid() && this.storage == storage
      ensures currentCapture == null && ctx == null && !captureRunning && currentIface == ""
    {
      this.storage := storage;
      currentCapture := null;
      currentIface := "";
      ctx := null;
      captureRunning := false;
    }

    /** Stops the running session (manager.go:102-123): cancel its context,
        close and drop its capture. The source then sleeps 100 ms. It never
        fails, and it does not forget the interface name. */
    method StopCapture() returns (err: Option<string>)
      requires Valid()
      modifies this, ctx, currentCapture
      ensures Valid() && err == None
      ensures currentIface == old(currentIface) && ctx == old(ctx) && !captureRunning
      ensures !old(captureRunning) ==>
        && unchanged(this)
        && (ctx != null ==> ctx.done == old(ctx.done))
        && (currentCapture != null ==> currentCapture.handleOpen == old(currentCapture.handleOpen))
      ensures old(captureRunning) ==>
        currentCapture == null && old(ctx).done && !old(currentCapture).handleOpen
    {
      if !captureRunning {
        return None;
      }
      if ctx != null {
        ctx.Cancel();
      }
      if currentCapture != null {
        currentCapture.Close();
        currentCapture := null;
      }
      captureRunning := false;
      return None;
    }

    /** Starts capturing on `iface` (manager.go:31-80): stop the running
        session, clear the store's tables, create the capture and record it.
        `found` and `openable` stand for the capture library (see
        Capture.NewPacketCapture). */
    method Start(iface: string, found: Option<seq<Capture.Device>>, openable: set<string>)
      returns (err: Option<StartError>)
      requires Valid()
      modifies this, storage, ctx, currentCapture
      ensures Valid()
      ensures storage.connections == map[] && storage.interfaces == map[]
      ensures storage.snapshots == old(storage.snapshots) && storage.history == old(storage.history)
      ensures old(captureRunning) ==> old(ctx).done && !old(currentCapture).handleOpen
      ensures !old(captureRunning) && old(ctx) != null ==> old(ctx).done == old(ctx.done)
      ensures !old(captureRunning) && old(currentCapture) != null ==>
        old(currentCapture).handleOpen == old(currentCapture.handleOpen)
      ensures var outcome := Capture.CaptureOutcome(iface, found, openable);
        err == if outcome.Some? then Some(CreateFailed(outcome.value)) else None
      ensures err.Some? ==>
        && !captureRunning && currentIface == old(currentIface) && ctx == old(ctx)
        && currentCapture == (if old(captureRunning) then null else old(currentCapture))
      ensures err.None? ==>
        && captureRunning && currentIface == iface
        && fresh(ctx) && !ctx.done
        && fresh(currentCapture) && currentCapture.handleOpen
        && currentCapture.iface == Capture.ChosenInterface(iface, found)
    {
      if captureRunning {
        var stopErr := StopCapture();
        if stopErr.Some? {
          return Some(StopFailed);
        }
      }

      storage.ClearConnections();

      var capturer, createErr := Capture.NewPacketCapture(iface, found, openable);
      if createErr.Some? {
        return Some(CreateFailed(createErr.value));
      }

      var c := new CancelContext();
      currentCapture := capturer;
      currentIface := iface;
      ctx := c;
      captureRunning := true;
      return None;
    }

    /** Exactly Start (manager.go:82-84). */
    method SwitchInterface(newIface: string, found: Option<seq<Capture.Device>>, openable: set<string>)
      returns (err: Option<StartError>)
      requires Valid()
      modifies this, storage, ctx, currentCapture
      ensures Valid()
      ensures storage.connections == map[] && storage.interfaces == map[]
      ensures storage.snapshots == old(storage.snapshots) && storage.history == old(storage.history)
      ensures old(captureRunning) ==> old(ctx).done && !old(currentCapture).handleOpen
      ensures !old(captureRunning) && old(ctx) != null ==> old(ctx).done == old(ctx.done)
      ensures !old(captureRunning) && old(currentCapture) != null ==>
        old(currentCapture).handleOpen == old(currentCapture.handleOpen)
      ensures var outcome := Capture.CaptureOutcome(newIface, found, openable);
        err == if outcome.Some? then Some(CreateFailed(outcome.value)) else None
      ensures err.Some? ==>
        && !captureRunning && currentIface == old(currentIface) && ctx == old(ctx)
        && currentCapture == (if old(captureRunning) then null else old(currentCapture))
      ensures err.None? ==>
        && captureRunning && currentIface == newIface
        && fresh(ctx) && !ctx.done
        && fresh(currentCapture) && currentCapture.handleOpen
        && currentCapture.iface == Capture.ChosenInterface(newIface, found)
    {
      err := Start(newIface, found, openable);
    }

    /** The recorded interface name: the argument of the last successful
        Start, "" after an auto-selected start (manager.go:86-91). */
    method GetCurrentInterface() returns (name: string)
      ensures name == currentIface
    {
      name := currentIface;
    }

    /** Stop (manager.go:94-99); a no-op when nothing runs, hence idempotent. */
    method Stop() returns (err: Option<string>)
      requires Valid()
      modifies this, ctx, currentCapture
      ensures Valid() && err == None
      ensures currentIface == old(currentIface) && ctx == old(ctx) && !captureRunning
      ensures !old(captureRunning) ==>
        && unchanged(this)
        && (ctx != null ==> ctx.done == old(ctx.done))
        && (currentCapture != null ==> currentCapture.handleOpen == old(currentCapture.handleOpen))
      ensures old(captureRunning) ==>
        currentCapture == null && old(ctx).done && !old(currentCapture).handleOpen
    {
      err := StopCapture();
    }

    /** A session goroutine has returned (manager.go:72-75). It clears the
        running flag whichever session it belonged to. The model allows this
        event at any time; in the source a session returns only once its
        context is cancelled (capture.go:68-69), so an exit while the
        current context is still live cannot happen there. */
    method CaptureExited()
      requires Valid()
      modifies this
      ensures Valid()
      ensures !captureRunning
      ensures currentCapture == old(currentCapture) && currentIface == old(currentIface) && ctx == old(ctx)
    {
      captureRunning := false;
    }
  }

  /** A switch followed by the exit of the replaced session's goroutine,
      which waits for the manager's lock until the switch has finished:
      the flag is cleared although the new session is live, and a later
      Stop then leaves that session uncancelled and its handle open. */
  method StaleExitAfterSwitch(storage: MemoryStore.MemoryStorage, a: string, b: string,
                              found: Option<seq<Capture.Device>>, openable: set<string>)
    returns (m: Manager)
    requires storage.Valid()
    requires Capture.CaptureOutcome(a, found, openable).None? && Capture.CaptureOutcome(b, found, openable).None?
    modifies storage
    ensures !m.captureRunning && m.currentIface == b
    ensures m.ctx != null && !m.ctx.done
    ensures m.currentCapture != null && m.currentCapture.handleOpen
  {
    m := new Manager(storage);
    var startA := m.Start(a, found, openable);
    var first := m.ctx;
    var startB := m.SwitchInterface(b, found, openable);
    assert first.done;
    m.CaptureExited();
    var stopped := m.Stop();
  }

  /** After the same stale exit, the next Start does not stop the session
      that is still live: a second session runs beside it, whose context
      and handle the manager no longer holds. */
  method StaleExitThenRestart(storage: MemoryStore.MemoryStorage, a: string, b: string, c: string,
                              found: Option<seq<Capture.Device>>, openable: set<string>)
    returns (m: Manager, leaked: CancelContext, leakedCapture: Capture.PacketCapture)
    requires storage.Valid()
    requires Capture.CaptureOutcome(a, found, openable).None? && Capture.CaptureOutcome(b, found, openable).None?
    requires Capture.CaptureOutcome(c, found, openable).None?
    modifies storage
    ensures m.captureRunning && m.currentIface == c
    ensures !leaked.done && leakedCapture.handleOpen
    ensures m.ctx != leaked && m.currentCapture != leakedCapture
  {
    m := new Manager(storage);
    var startA := m.Start(a, found, openable);
    var startB := m.SwitchInterface(b, found, openable);
    leaked, leakedCapture := m.ctx, m.currentCapture;
    m.CaptureExited();
    var startC := m.Start(c, found, openable);
  }
}
