/** The spoutFrameCount object of a Spout sender or receiver: the semaphore frame
    counter with its enable/disable flags, the sender fps estimate, the HoldFps
    limiter, and the choice between a texture's keyed mutex and the sender's named
    access mutex. Each method is proved against the value-level functions of
    FrameCounter and Pacing; the operating system is the Kernel module. */
module SpoutFrameCount {
  import opened Kernel
  import opened FrameCounter
  import opened Pacing

  /** Suffixes of the per-sender object names; every process derives the same names. */
  const CountSuffix: string := "_Count_Semaphore"
  const MutexSuffix: string := "_SpoutAccessMutex"

  /** Sizes of the character buffers the names are formatted into (terminator included). */
  const NameBufferSize: nat := 256
  const MutexNameBufferSize: nat := 512

  /** The fps assumed when no display mode can be enumerated. */
  const DefaultRefreshRate: real := 60.0

  /** A C string cannot hold a NUL character. */
  predicate IsCString(s: string) {
    '\0' !in s
  }

  /** GetRefreshRate enumerates the display modes until the enumeration fails and keeps
      the frequency of the last one it saw. */
  function LastModeFrequency(modes: seq<nat>): real {
    if modes == [] then DefaultRefreshRate else modes[|modes| - 1] as real
  }

  /** GetRefreshRate, with EnumDisplaySettings(NULL, i, ..) succeeding exactly for
      i < |modes| and reporting modes[i] as the display frequency. */
  method RefreshRate(modes: seq<nat>) returns (frequency: real)
    ensures frequency == LastModeFrequency(modes)
    ensures modes == [] ==> frequency == DefaultRefreshRate
    ensures modes != [] ==> frequency == modes[|modes| - 1] as real
  {
    frequency := DefaultRefreshRate;
    var more := true;
    var current := 0;
    while more
      invariant 0 <= current <= |modes| + 1
      invariant more ==> current <= |modes|
      invariant !more ==> current == |modes| + 1
      invariant frequency == LastModeFrequency(modes[..if current <= |modes| then current else |modes|])
      decreases |modes| + 1 - current
    {
      more := current < |modes|;
      if more {
        frequency := modes[current] as real;
      }
      current := current + 1;
    }
    assert modes[..|modes|] == modes;
  }

  class FrameCount {
    /** The kernel namespace this process opens named objects in. */
    const ns: Namespace
    /** What EnumDisplaySettings reports on this host. */
    const displayModes: seq<nat>

    var accessMutex: NamedMutex?       // m_hAccessMutex
    var countSemaphore: Semaphore?     // m_hCountSemaphore
    var senderName: string             // m_SenderName
    var countSemaphoreName: string     // m_CountSemaphoreName
    var frameCount: int                // m_FrameCount
    var lastFrameCount: int            // m_LastFrameCount
    var frameTimeTotal: real           // m_FrameTimeTotal (ms)
    var frameTimeNumber: real          // m_FrameTimeNumber
    var frameTick: real                // *m_FramePtr, time of the previous counted frame (ms)
    var frameStart: real               // *m_FrameStartPtr, HoldFps baseline (ms)
    var isNewFrame: bool               // m_bIsNewFrame
    var senderFps: real                // m_SenderFps
    var frameCountSetting: bool        // m_bFrameCount, the registry "Framecount" setting
    var disabled: bool                 // m_bDisabled, frame counting disabled by the application
    var millisForFrame: real           // m_millisForFrame, HoldFps period (ms)

    ghost predicate Valid()
      reads this
    {
      0.0 <= frameTimeNumber <= FpsWindow &&
      (countSemaphore != null ==> senderName != [] && countSemaphoreName == senderName + CountSuffix)
    }

    /** The channel state the value-level model works on. */
    ghost function ChannelView(): Channel
      reads this
    {
      Channel(frameCountSetting, disabled, frameCount, lastFrameCount, isNewFrame,
              Estimator(frameTimeTotal, frameTimeNumber, frameTick, senderFps))
    }

    /** The semaphore behind the handle, if a handle is held. */
    ghost function SemView(): Option<Sem>
      reads this, countSemaphore
    {
      if countSemaphore == null then None else Some(countSemaphore.View())
    }

    ghost function PacerView(): Pacer
      reads this
    {
      Pacer(millisForFrame, frameStart)
    }

    twostate predicate KeptHandlesAndNames()
      reads this
    {
      accessMutex == old(accessMutex) && countSemaphore == old(countSemaphore) &&
      senderName == old(senderName) && countSemaphoreName == old(countSemaphoreName)
    }

    /** What CleanupFrameCount leaves: nothing changed when no semaphore handle was held;
        otherwise the handle closed, the sender name cleared and the counters reset. */
    twostate predicate CleanedUp()
      reads this
    {
      accessMutex == old(accessMutex) && countSemaphoreName == old(countSemaphoreName) &&
      PacerView() == old(PacerView()) && isNewFrame == old(isNewFrame) && frameTick == old(frameTick) &&
      countSemaphore == null &&
      if old(countSemaphore) == null then
        senderName == old(senderName) && frameCount == old(frameCount) &&
        lastFrameCount == old(lastFrameCount) && frameTimeTotal == old(frameTimeTotal) &&
        frameTimeNumber == old(frameTimeNumber) && senderFps == old(senderFps)
      else
        senderName == [] && frameCount == 0 && lastFrameCount == 0 &&
        frameTimeTotal == 0.0 && frameTimeNumber == 0.0 &&
        senderFps == LastModeFrequency(displayModes)
    }

    /** The access mutex, if a handle is held, is as it was. */
    twostate predicate MutexKept()
      reads this, accessMutex
    {
      accessMutex == old(accessMutex) &&
      (accessMutex != null ==>
        accessMutex.owner == old(accessMutex.owner) && accessMutex.depth == old(accessMutex.depth))
    }

    /** A wait on the access mutex with this outcome: a granting outcome makes this object
        the owner with one more acquisition; any other leaves the mutex as it was. */
    twostate predicate MutexWaited(outcome: WaitResult)
      reads this, accessMutex
    {
      accessMutex == old(accessMutex) &&
      (accessMutex != null ==>
        if outcome.GrantsOwnership() then
          accessMutex.owner == this && accessMutex.HeldBy(this) == old(accessMutex.HeldBy(this)) + 1
        else
          accessMutex.owner == old(accessMutex.owner) && accessMutex.depth == old(accessMutex.depth))
    }

    /** A release of the access mutex: one acquisition of this object's is given back, the
        last one leaving the mutex unowned; a mutex this object does not hold, which
        another caller may own, is left as it was. */
    twostate predicate MutexReleased()
      reads this, accessMutex
    {
      accessMutex == old(accessMutex) &&
      (accessMutex != null ==>
        if old(accessMutex.HeldBy(this)) > 0 then
          accessMutex.HeldBy(this) == old(accessMutex.HeldBy(this)) - 1 &&
          (accessMutex.HeldBy(this) == 0 ==> accessMutex.owner == null)
        else
          accessMutex.owner == old(accessMutex.owner) && accessMutex.depth == old(accessMutex.depth))
    }

    constructor (ns: Namespace, registrySetting: bool, displayModes: seq<nat>)
      ensures this.ns == ns && this.displayModes == displayModes
      ensures Valid()
      ensures accessMutex == null && countSemaphore == null && senderName == [] && countSemaphoreName == []
      ensures ChannelView() ==
        Channel(registrySetting, false, 0, 0, false, Estimator(0.0, 0.0, 0.0, LastModeFrequency(displayModes)))
      ensures PacerView() == Pacer(0.0, 0.0)
    {
      var fps := RefreshRate(displayModes);
      this.ns := ns;
      this.displayModes := displayModes;
      accessMutex := null;
      countSemaphore := null;
      senderName := [];
      countSemaphoreName := [];
      frameCount := 0;
      lastFrameCount := 0;
      frameTimeTotal := 0.0;
      frameTimeNumber := 0.0;
      frameTick := 0.0;
      frameStart := 0.0;
      isNewFrame := false;
      senderFps := fps;
      frameCountSetting := registrySetting;
      disabled := false;
      millisForFrame := 0.0;
    }

    // -------------------------------------------------------------------------
    // Flags
    // -------------------------------------------------------------------------

    function IsFrameCountEnabled(): (r: bool)
      reads this
      ensures r == Enabled(ChannelView())
    {
      frameCountSetting && !disabled
    }

    /** SetFrameCount: switching the setting on clears the application disable only when
        the setting was off; switching it off cleans up an active channel and clears both. */
    method SetFrameCount(enable: bool)
      requires Valid()
      modifies this
      ensures Valid()
      ensures frameCountSetting == enable
      ensures disabled == (enable && old(frameCountSetting) && old(disabled))
      ensures enable || !old(IsFrameCountEnabled()) ==>
        KeptHandlesAndNames() && PacerView() == old(PacerView()) &&
        ChannelView() == old(ChannelView()).(setting := frameCountSetting, disabled := disabled)
      ensures !enable && old(IsFrameCountEnabled()) ==> CleanedUp()
    {
      if enable {
        if !frameCountSetting {
          frameCountSetting := true;
          disabled := false;
        }
      } else {
        if frameCountSetting {
          if IsFrameCountEnabled() {
            CleanupFrameCount();
          }
        }
        frameCountSetting := false;
        disabled := false;
      }
    }

    /** EnableFrameCount: refused when counting is off, disabled by the application, or
        the name is empty; otherwise resets the counters and timers, keeps the handle if
        it is already open for this name, and else creates or opens "<name>_Count_Semaphore". */
    method EnableFrameCount(name: string)
      requires Valid()
      requires IsCString(name)
      // the name is only copied into the fixed buffers once the guards have passed
      requires IsFrameCountEnabled() && name != [] ==> |name| + |CountSuffix| < NameBufferSize
      modifies this, ns
      ensures Valid()
      ensures !old(IsFrameCountEnabled()) || name == [] ==> unchanged(this) && unchanged(ns)
      ensures old(IsFrameCountEnabled()) && name != [] ==>
        ChannelView() == old(ChannelView()).(frameCount := 0, lastFrameCount := 0,
          est := Estimator(0.0, 0.0, 0.0, LastModeFrequency(displayModes))) &&
        PacerView() == Pacer(0.0, 0.0) && accessMutex == old(accessMutex)
      // already enabled for this sender: the handle is kept
      ensures old(IsFrameCountEnabled()) && name != [] && old(countSemaphore) != null && name == old(senderName) ==>
        KeptHandlesAndNames() && unchanged(ns)
      // otherwise the old handle is dropped and the named semaphore created or opened
      ensures old(IsFrameCountEnabled()) && name != [] && !(old(countSemaphore) != null && name == old(senderName)) ==>
        senderName == name && countSemaphoreName == name + CountSuffix &&
        var key := name + CountSuffix;
        if key in old(ns.objects) then
          ns.objects == old(ns.objects) &&
          countSemaphore == (if old(ns.objects)[key].SemaphoreObject? then old(ns.objects)[key].sem else null) &&
          (countSemaphore != null ==> unchanged(countSemaphore))
        else
          countSemaphore != null && fresh(countSemaphore) && countSemaphore.View() == FreshSemaphore &&
          ns.objects == old(ns.objects)[key := SemaphoreObject(countSemaphore)]
    {
      if !frameCountSetting {
        return;
      }
      if disabled {
        return;
      }
      if name == [] {
        return;
      }
      ResetCounters();
      if countSemaphore != null && name == senderName {
        return;
      }
      OpenCountSemaphore(name);
    }

    /** The reset EnableFrameCount performs before looking at the handle: frame numbers,
        fps accumulators, the fps default, the HoldFps period and the timers. */
    method ResetCounters()
      requires Valid()
      modifies this
      ensures Valid() && KeptHandlesAndNames()
      ensures ChannelView() == old(ChannelView()).(frameCount := 0, lastFrameCount := 0,
        est := Estimator(0.0, 0.0, 0.0, LastModeFrequency(displayModes)))
      ensures PacerView() == Pacer(0.0, 0.0)
    {
      frameCount := 0;
      lastFrameCount := 0;
      frameTimeTotal := 0.0;
      frameTimeNumber := 0.0;
      senderFps := RefreshRate(displayModes);
      millisForFrame := 0.0;
      frameStart := 0.0;
      frameTick := 0.0;
    }

    /** The second half of EnableFrameCount: drop the current handle, record the name,
        and create or open "<name>_Count_Semaphore". */
    method OpenCountSemaphore(name: string)
      requires Valid()
      requires name != [] && IsCString(name) && |name| + |CountSuffix| < NameBufferSize
      modifies this, ns
      ensures Valid() && accessMutex == old(accessMutex)
      ensures ChannelView() == old(ChannelView()) && PacerView() == old(PacerView())
      ensures senderName == name && countSemaphoreName == name + CountSuffix
      ensures var key := name + CountSuffix;
        if key in old(ns.objects) then
          ns.objects == old(ns.objects) &&
          countSemaphore == (if old(ns.objects)[key].SemaphoreObject? then old(ns.objects)[key].sem else null) &&
          (countSemaphore != null ==> unchanged(countSemaphore))
        else
          countSemaphore != null && fresh(countSemaphore) && countSemaphore.View() == FreshSemaphore &&
          ns.objects == old(ns.objects)[key := SemaphoreObject(countSemaphore)]
    {
      if countSemaphore != null {
        countSemaphore := null;
        countSemaphoreName := [];
      }
      senderName := name;
      countSemaphoreName := name + CountSuffix;
      var h := ns.CreateSemaphore(countSemaphoreName, 1, LongMax);
      if h == null {
        return;
      }
      countSemaphore := h;
    }

    /** DisableFrameCount: cleans up and marks counting disabled by the application. */
    method DisableFrameCount()
      requires Valid()
      modifies this
      ensures Valid()
      ensures CleanedUp() && disabled && frameCountSetting == old(frameCountSetting)
      ensures !IsFrameCountEnabled()
    {
      CleanupFrameCount();
      disabled := true;
    }

    /** CleanupFrameCount: nothing to do without a handle; otherwise the handle is closed,
        the sender name cleared and the counters reset. The flags are kept. */
    method CleanupFrameCount()
      requires Valid()
      modifies this
      ensures Valid()
      ensures CleanedUp() && frameCountSetting == old(frameCountSetting) && disabled == old(disabled)
    {
      if countSemaphore == null {
        return;
      }
      countSemaphore := null;
      senderName := [];
      frameCount := 0;
      lastFrameCount := 0;
      senderFps := RefreshRate(displayModes);
      frameTimeTotal := 0.0;
      frameTimeNumber := 0.0;
    }

    // -------------------------------------------------------------------------
    // Counter
    // -------------------------------------------------------------------------

    /** SetNewFrame, called by a sender for every update of the shared texture. */
    method SetNewFrame(now: real)
      requires Valid()
      modifies this, countSemaphore
      ensures Valid() && KeptHandlesAndNames() && PacerView() == old(PacerView())
      ensures var r := Publish(old(ChannelView()), old(SemView()), now);
        ChannelView() == r.channel && SemView() == r.sem
    {
      if !frameCountSetting || disabled {
        return;
      }
      if countSemaphore == null {
        return;    // waiting on a NULL handle fails
      }
      var wait := countSemaphore.WaitZero();
      if wait == WaitObject0 {
        var ok, _ := countSemaphore.Release(2);
        if ok {
          frameCount := frameCount + 1;
          UpdateSenderFps(1, now);
        }
      }
    }

    /** GetNewFrame, called by a receiver: reads the count and decides whether the
        sender has produced a frame since the last call. */
    method GetNewFrame(now: real) returns (isNew: bool)
      requires Valid()
      modifies this, countSemaphore
      ensures Valid() && KeptHandlesAndNames() && PacerView() == old(PacerView())
      ensures var r := Poll(old(ChannelView()), old(SemView()), now);
        ChannelView() == r.channel && SemView() == r.sem && isNew == r.isNew
    {
      var observed := 0;
      if !frameCountSetting || disabled {
        return true;
      }
      if countSemaphore == null {
        return true;
      }
      var wait := countSemaphore.WaitZero();
      if wait == WaitObject0 {
        var ok, previous := countSemaphore.Release(1);
        if !ok {
          return true;    // do not block
        }
        observed := previous;
      }
      frameCount := observed;
      if observed == 0 {
        return true;
      }
      if observed == lastFrameCount {
        isNewFrame := false;
        return false;
      }
      UpdateSenderFps(observed - lastFrameCount, now);
      lastFrameCount := observed;
      isNewFrame := true;
      return true;
    }

    function IsFrameNew(): (r: bool)
      reads this
      ensures r == ChannelView().isNewFrame
    {
      isNewFrame
    }

    function GetSenderFps(): (r: real)
      reads this
      ensures r == ChannelView().est.fps
    {
      senderFps
    }

    function GetSenderFrame(): (r: int)
      reads this
      ensures r == ChannelView().frameCount
    {
      frameCount
    }

    /** UpdateSenderFps(frames) at time `now`. */
    method UpdateSenderFps(frames: int, now: real)
      requires Valid()
      modifies this
      ensures Valid() && KeptHandlesAndNames() && PacerView() == old(PacerView())
      ensures ChannelView() == old(ChannelView()).(est := UpdateFps(old(ChannelView()).est, frames, now))
    {
      if frames > 0 {
        var frametime := now - frameTick;
        frameTick := now;
        frameTimeTotal := frameTimeTotal + frametime;
        frameTimeNumber := frameTimeNumber + frames as real;
        if frameTimeNumber > FpsWindow {
          frametime := frameTimeTotal / frameTimeNumber;
          frameTimeTotal := 0.0;
          frameTimeNumber := 0.0;
          frametime := frametime / 1000.0;
          if frametime > MinFrameSeconds {
            var fps := 1.0 / frametime;
            senderFps := 0.85 * senderFps + 0.15 * fps;
          }
        }
      }
    }

    // -------------------------------------------------------------------------
    // Pacing
    // -------------------------------------------------------------------------

    /** HoldFps(fps) entered at clock time `now`; `resumed` is the clock once the returned
        sleep is over. */
    method HoldFps(fps: int, now: real, resumed: real) returns (sleepMs: int)
      requires Valid()
      modifies this
      ensures Valid() && KeptHandlesAndNames() && ChannelView() == old(ChannelView())
      ensures var r := HoldStep(old(PacerView()), fps, now, resumed);
        PacerView() == r.pacer && sleepMs == r.sleepMs
    {
      sleepMs := 0;
      if fps <= 0 {
        return;
      }
      var framerate := fps as real;
      if millisForFrame < UnsetPeriod {
        millisForFrame := 1000.0 / framerate;
        frameStart := now;
      } else {
        var elapsed := now - frameStart;
        if elapsed < millisForFrame {
          sleepMs := (millisForFrame - elapsed).Floor;
        }
        frameStart := resumed;
      }
    }

    // -------------------------------------------------------------------------
    // Texture access
    // -------------------------------------------------------------------------

    /** The keyed-mutex path is used exactly for a texture created with the shared
        keyed-mutex flag, whatever other flags it carries. */
    function IsKeyedMutex(tex: Texture?): (keyed: bool)
      ensures keyed ==> tex != null
      ensures tex != null ==> (keyed <==> tex.miscFlags | SharedKeyedMutexFlag == tex.miscFlags)
    {
      tex != null && tex.miscFlags & SharedKeyedMutexFlag != 0
    }

    /** CheckTextureAccess: waits on the texture's keyed mutex when it has one, on the
        sender's named mutex otherwise, never on both. */
    method CheckTextureAccess(tex: Texture?, outcome: WaitResult) returns (ok: bool)
      modifies tex, accessMutex
      ensures IsKeyedMutex(tex) ==>
        ok == (tex.hasKeyedMutex && outcome == WaitObject0) &&
        tex.keyHeld == (if tex.hasKeyedMutex then ok else old(tex.keyHeld)) && MutexKept()
      ensures !IsKeyedMutex(tex) ==>
        ok == (accessMutex == null || outcome == WaitObject0) && MutexWaited(outcome) &&
        (tex != null ==> tex.keyHeld == old(tex.keyHeld))
    {
      if IsKeyedMutex(tex) {
        ok := CheckKeyedAccess(tex, outcome);
      } else {
        ok := CheckAccess(outcome);
      }
    }

    /** AllowTextureAccess: releases whichever lock CheckTextureAccess would have taken. */
    method AllowTextureAccess(tex: Texture?)
      modifies tex, accessMutex
      ensures IsKeyedMutex(tex) ==>
        tex.keyHeld == (tex.hasKeyedMutex == false && old(tex.keyHeld)) && MutexKept()
      ensures !IsKeyedMutex(tex) ==>
        MutexReleased() && (tex != null ==> tex.keyHeld == old(tex.keyHeld))
    {
      if IsKeyedMutex(tex) {
        AllowKeyedAccess(tex);
      } else {
        AllowAccess();
      }
    }

    /** CreateAccessMutex: creates or opens "<name>_SpoutAccessMutex"; on failure the
        previous handle is kept. */
    method CreateAccessMutex(name: string) returns (ok: bool)
      requires Valid()
      requires IsCString(name) && |name| + |MutexSuffix| < MutexNameBufferSize
      modifies this, ns
      ensures Valid()
      ensures countSemaphore == old(countSemaphore) && senderName == old(senderName) &&
        countSemaphoreName == old(countSemaphoreName)
      ensures ChannelView() == old(ChannelView()) && PacerView() == old(PacerView())
      ensures var key := name + MutexSuffix;
        if key in old(ns.objects) then
          ns.objects == old(ns.objects) && ok == old(ns.objects)[key].MutexObject? &&
          accessMutex == (if ok then old(ns.objects)[key].mutex else old(accessMutex))
        else
          ok && accessMutex != null && fresh(accessMutex) && accessMutex.owner == null &&
          accessMutex.depth == 0 &&
          ns.objects == old(ns.objects)[key := MutexObject(accessMutex)]
    {
      var h := ns.CreateMutex(name + MutexSuffix);
      if h == null {
        return false;
      }
      accessMutex := h;
      return true;
    }

    /** CloseAccessMutex: drops the handle, if any. */
    method CloseAccessMutex()
      requires Valid()
      modifies this
      ensures Valid() && accessMutex == null
      ensures countSemaphore == old(countSemaphore) && senderName == old(senderName) &&
        countSemaphoreName == old(countSemaphoreName)
      ensures ChannelView() == old(ChannelView()) && PacerView() == old(PacerView())
    {
      accessMutex := null;
    }

    /** CheckAccess: succeeds without a handle, and otherwise only on WAIT_OBJECT_0. An
        abandoned wait hands the mutex to the caller yet reports failure. */
    method CheckAccess(outcome: WaitResult) returns (ok: bool)
      modifies accessMutex
      ensures ok == (accessMutex == null || outcome == WaitObject0)
      ensures MutexWaited(outcome)
      ensures accessMutex != null && outcome == WaitAbandoned ==>
        !ok && accessMutex.owner == this && accessMutex.HeldBy(this) == old(accessMutex.HeldBy(this)) + 1
    {
      if accessMutex == null {
        return true;
      }
      accessMutex.Wait(this, outcome);
      ok := outcome == WaitObject0;
    }

    /** AllowAccess: releases the named mutex if there is a handle; releasing a mutex the
        caller does not own changes nothing. */
    method AllowAccess()
      modifies accessMutex
      ensures MutexReleased()
    {
      if accessMutex != null {
        var _ := accessMutex.Release(this);
      }
    }

    /** CheckKeyedAccess: fails for a null texture or one without a keyed mutex; otherwise
        succeeds only on WAIT_OBJECT_0 and gives the key back on every other outcome. */
    method CheckKeyedAccess(tex: Texture?, outcome: WaitResult) returns (ok: bool)
      modifies tex
      ensures ok == (tex != null && tex.hasKeyedMutex && outcome == WaitObject0)
      ensures tex != null && tex.hasKeyedMutex ==> tex.keyHeld == ok
      ensures tex != null && !tex.hasKeyedMutex ==> tex.keyHeld == old(tex.keyHeld)
    {
      ok := false;
      if tex != null && tex.hasKeyedMutex {
        tex.AcquireSync(outcome);
        if outcome == WaitObject0 {
          return true;
        }
        var _ := tex.ReleaseSync();
      }
    }

    /** AllowKeyedAccess: gives the key back, if the texture has a keyed mutex. */
    method AllowKeyedAccess(tex: Texture?)
      modifies tex
      ensures tex != null && tex.hasKeyedMutex ==> !tex.keyHeld
      ensures tex != null && !tex.hasKeyedMutex ==> tex.keyHeld == old(tex.keyHeld)
    {
      if tex != null && tex.hasKeyedMutex {
        var _ := tex.ReleaseSync();
      }
    }
  }

  // ---------------------------------------------------------------------------
  // Two processes on one host
  // ---------------------------------------------------------------------------

  /** A sender and a receiver enable counting for the same name, so they share one
      semaphore; one publish is seen as a new frame numbered 1, and a second poll
      without a publish is not new. */
  method SenderToReceiver(name: string, modes: seq<nat>, t0: real, t1: real, t2: real)
    returns (firstNew: bool, observed: int, secondNew: bool)
    requires name != [] && IsCString(name) && |name| + |CountSuffix| < NameBufferSize
    ensures firstNew && observed == 1 && !secondNew
  {
    var os := new Namespace();
    var sender := new FrameCount(os, true, modes);
    var receiver := new FrameCount(os, true, modes);
    sender.EnableFrameCount(name);
    receiver.EnableFrameCount(name);
    assert receiver.countSemaphore == sender.countSemaphore;
    sender.SetNewFrame(t0);
    firstNew := receiver.GetNewFrame(t1);
    observed := receiver.GetSenderFrame();
    secondNew := receiver.GetNewFrame(t2);
  }

  /** After DisableFrameCount the channel is closed with its counters reset, and a new
      EnableFrameCount is refused even after SetFrameCount(true); only SetFrameCount(false)
      followed by SetFrameCount(true) lets the channel be enabled again. */
  method DisableThenReenable(name: string, modes: seq<nat>, t0: real)
    returns (frame: int, fps: real, refused: bool, stillRefused: bool, reopened: bool)
    requires name != [] && IsCString(name) && |name| + |CountSuffix| < NameBufferSize
    ensures frame == 0 && fps == LastModeFrequency(modes)
    ensures refused && stillRefused && reopened
  {
    var os := new Namespace();
    var sender := new FrameCount(os, true, modes);
    sender.EnableFrameCount(name);
    sender.SetNewFrame(t0);
    sender.DisableFrameCount();
    frame := sender.GetSenderFrame();
    fps := sender.GetSenderFps();
    sender.EnableFrameCount(name);
    refused := sender.countSemaphore == null;
    sender.SetFrameCount(true);
    sender.EnableFrameCount(name);
    stillRefused := sender.countSemaphore == null;
    sender.SetFrameCount(false);
    sender.SetFrameCount(true);
    sender.EnableFrameCount(name);
    reopened := sender.countSemaphore != null;
  }

  /** A sender and a receiver open the same access mutex. While the sender holds it, the
      receiver's release changes nothing and its wait times out; the sender's own
      release then frees the mutex. */
  method SharedAccessMutex(name: string, modes: seq<nat>)
    returns (senderOk: bool, stillHeld: bool, receiverOk: bool, freed: bool)
    requires IsCString(name) && |name| + |MutexSuffix| < MutexNameBufferSize
    ensures senderOk && stillHeld && !receiverOk && freed
  {
    var os := new Namespace();
    var sender := new FrameCount(os, true, modes);
    var receiver := new FrameCount(os, true, modes);
    var created := sender.CreateAccessMutex(name);
    created := receiver.CreateAccessMutex(name);
    assert receiver.accessMutex == sender.accessMutex && sender.accessMutex != null;
    senderOk := sender.CheckAccess(WaitObject0);
    receiver.AllowAccess();
    stillHeld := sender.accessMutex.HeldBy(sender) == 1;
    receiverOk := receiver.CheckAccess(WaitTimeout);
    sender.AllowAccess();
    freed := sender.accessMutex.owner == null;
  }
}
