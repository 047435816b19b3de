# Spout frame counter and texture access, in Dafny

This project models `spoutFrameCount`, the part of the Spout library that KlakSpout
uses to coordinate a sender and its receivers across processes. It has three parts:

- **Frame counter.** A named Windows counting semaphore, `"<sender>_Count_Semaphore"`,
  is created with count 1 and maximum `LONG_MAX` and used as a counter shared by
  processes.
  - The sender publishes with `SetNewFrame`: a zero-timeout wait, then a release of 2, so
    the count goes up by exactly 1.
  - A receiver polls with `GetNewFrame`: a zero-timeout wait, then a release of 1 that
    reads the previous count. The count is left as it was. The receiver then decides
    whether the frame is new.
  - The registry setting and the application-disable flag gate everything and fail open.
  - The sender fps is estimated over a 16-frame window with 0.85/0.15 damping.
- **Texture access.** For each call, the code chooses between a DX11 texture's keyed
  mutex and the sender's named mutex, `"<sender>_SpoutAccessMutex"`. The choice depends
  on whether the texture was created with `D3D11_RESOURCE_MISC_SHARED_KEYEDMUTEX`. Wait
  outcomes are mapped to a boolean.
- **Pacing.** `HoldFps` is a frame-time limiter that works one call at a time.

Layout:

- `kernel.dfy` (module `Kernel`): the operating-system objects.
  - The semaphore, as a count and a maximum.
  - The named mutex, as the caller that owns it and how many times that owner has
    acquired it without releasing it. Each caller is identified by an object; a
    `FrameCount` waits and releases as itself.
  - A texture, with its creation flags and its keyed mutex.
  - The kernel namespace, which maps names to objects shared by every process. It gives
    create-or-open semantics and the `ERROR_INVALID_HANDLE` failure for a name held by
    another kind of object.
- `frame_counter.dfy` (module `FrameCounter`): one publish, one poll and one fps update,
  written as functions over values. It also holds lemmas about runs of publishes and
  polls by a sender and a receiver sharing one semaphore.
- `pacing.dfy` (module `Pacing`): `HoldFps` as a function, with lemmas about runs of
  calls.
- `spout_frame_count.dfy` (module `SpoutFrameCount`): the class `FrameCount`, whose fields
  are the fields of `spoutFrameCount`.
  - Each method that changes the counter, the estimator or the pacing state is proved to
    match the matching function above. Its view of the object (`ChannelView`, `SemView`,
    `PacerView`) is the function applied to its old view.
  - `GetRefreshRate` is the loop `RefreshRate` over the list of display modes.
  - Three client methods run the class in one namespace: a sender and a receiver
    sharing the frame counter, a sender that is disabled and enabled again, and a
    sender and a receiver sharing the access mutex.

Time is passed in as milliseconds of the monotonic clock. Doubles are `real`. The
wait outcomes of the named and keyed mutexes are parameters, because other processes
decide them. The model follows the `USE_CHRONO` branch of the source. So `HoldFps`
treats a period below 0.01 ms as "not set", and the time points that
`EnableFrameCount` allocates again read as the clock's epoch (0).

Points of the code's behaviour that the model keeps as written:

- `CheckAccess` returns false on WAIT_ABANDONED, although the calling thread now owns
  the named mutex (source lines 617-636). The `CheckAccess` contract states both
  facts. The keyed path instead gives the key back on every outcome other than success.
- A poll that reads 0 returns true. It does not touch `m_bIsNewFrame` or
  `m_LastFrameCount`.
- `EnableFrameCount` for the name it is already enabled for still resets the frame
  numbers, the fps accumulators, the fps default and the `HoldFps` period. Only the
  handle is kept.
- `SetFrameCount(true)` clears the application-disable flag only when the setting was
  off. After `DisableFrameCount`, only `SetFrameCount(false)` followed by
  `SetFrameCount(true)` lets the channel be enabled again (`DisableThenReenable`).
- The default fps is the frequency of the last display mode that `EnumDisplaySettings`
  lists. It is not necessarily the mode currently in use.

## Model

| member | source | states |
|---|---|---|
| `Kernel.Semaphore.WaitZero` | Plugin/Spout/SpoutGL/SpoutFrameCount.cpp:298 | a zero-timeout wait takes one unit when the count is positive (WAIT_OBJECT_0) and otherwise times out with the count unchanged |
| `Kernel.Semaphore.Release` | Plugin/Spout/SpoutGL/SpoutFrameCount.cpp:304 | ReleaseSemaphore succeeds exactly when the release is positive and stays within the maximum; on success it reports the previous count and adds n, on failure the count is unchanged |
| `Kernel.Semaphore.constructor` | Plugin/Spout/SpoutGL/SpoutFrameCount.cpp:233-237 | a new semaphore holds the given initial count and maximum |
| `Kernel.NamedMutex.constructor` | Plugin/Spout/SpoutGL/SpoutFrameCount.cpp:562 | a mutex created without an initial owner has no owner and no acquisitions |
| `Kernel.NamedMutex.Wait` | Plugin/Spout/SpoutGL/SpoutFrameCount.cpp:617 | WAIT_OBJECT_0 and WAIT_ABANDONED both make the caller the owner with one more acquisition; a timeout or failure leaves the mutex as it was |
| `Kernel.NamedMutex.Release` | Plugin/Spout/SpoutGL/SpoutFrameCount.cpp:644-648 | ReleaseMutex succeeds exactly when the caller itself holds the mutex, and then gives back one of its acquisitions, the last one leaving the mutex unowned; a release by any other caller fails and changes nothing |
| `Kernel.OneOwnerAtATime` | Plugin/Spout/SpoutGL/SpoutFrameCount.cpp:644-646 | the mutex records a single owner, so two callers that both hold acquisitions are the same caller; this is a fact about the representation, not a mutual-exclusion result, since the wait outcomes are parameters |
| `Kernel.Texture.constructor` | Plugin/Spout/SpoutGL/SpoutFrameCount.cpp:719-721 | a texture carries its creation flags and whether it exposes a keyed mutex, whose key starts free |
| `Kernel.Texture.AcquireSync` | Plugin/Spout/SpoutGL/SpoutFrameCount.cpp:679 | AcquireSync holds the key after a success or an abandoned wait, and otherwise leaves the key as it was |
| `Kernel.Texture.ReleaseSync` | Plugin/Spout/SpoutGL/SpoutFrameCount.cpp:694 | ReleaseSync leaves the key free, and reports whether it had been held |
| `Kernel.Namespace.constructor` | Plugin/Spout/SpoutGL/SpoutFrameCount.cpp:231-237 | the kernel namespace starts empty |
| `Kernel.Namespace.CreateSemaphore` | Plugin/Spout/SpoutGL/SpoutFrameCount.cpp:233-251 | create-or-open by name: an existing semaphore is returned with its count, a name held by a mutex gives a null handle, and a new name gets a fresh semaphore with the given counts that is registered under it |
| `Kernel.Namespace.CreateMutex` | Plugin/Spout/SpoutGL/SpoutFrameCount.cpp:562-581 | create-or-open by name: an existing mutex is returned, a name held by a semaphore gives a null handle, and a new name gets a fresh, unowned mutex that is registered under it |
| `FrameCounter.InstantRate` | Plugin/Spout/SpoutGL/SpoutFrameCount.cpp:759-765 | a closed window yields a rate exactly when its mean frame time exceeds 0.0001 s; the rate is 1000 divided by the mean frame time in ms, and lies in (0, 10000) |
| `FrameCounter.Blend` | Plugin/Spout/SpoutGL/SpoutFrameCount.cpp:766 | the damped fps lies between the previous estimate and the new rate |
| `FrameCounter.UpdateFps` | Plugin/Spout/SpoutGL/SpoutFrameCount.cpp:734-771 | a frame count of 0 or below changes nothing; otherwise the time since the previous frame is taken from `now`; while the window holds at most 16 frames, the elapsed time and the frames are added to the accumulators and the fps is kept; once it passes 16, both accumulators restart from zero and the fps becomes the blend with the window's rate when that rate is accepted, and is kept otherwise; the accumulator stays within [0, 16] |
| `FrameCounter.UpdateKeepsFpsInRange` | Plugin/Spout/SpoutGL/SpoutFrameCount.cpp:757-768 | an fps in [0, 10000] stays there after an update, which changes it only to the blend with an accepted window rate |
| `FrameCounter.ClosingFrame` | Plugin/Spout/SpoutGL/SpoutFrameCount.cpp:755-767 | the 17th frame at a steady interval of d ms closes the window, and the fps moves 15% of the way to 1000 / d, or stays put when d is 0.1 ms or less |
| `FrameCounter.SteadyRunCloses` | Plugin/Spout/SpoutGL/SpoutFrameCount.cpp:734-771 | from a window already holding k frames at interval d, the run of frames that brings it to 17 closes the window at the last frame's time and damps the fps towards 1000 / d |
| `FrameCounter.SteadyRateEstimate` | Plugin/Spout/SpoutGL/SpoutFrameCount.cpp:734-771 | 17 frames at a steady interval of d ms, fed to an empty window, leave it empty at the time of the last frame, with fps − 1000/d shrunk to 85% of what it was; an interval of 0.1 ms or less leaves the fps alone |
| `FrameCounter.FeedsStayBounded` | Plugin/Spout/SpoutGL/SpoutFrameCount.cpp:734-771 | over any run of updates the window stays within [0, 16] frames and the fps within [0, 10000] |
| `FrameCounter.Publish` | Plugin/Spout/SpoutGL/SpoutFrameCount.cpp:287-322 | an enabled publish on a non-empty semaphore with room nets +1 on the semaphore and on the frame number, and feeds one frame to the estimator; a failed release leaves the semaphore one short and nothing else changed; when counting is off, when it is disabled, with no handle or with an empty semaphore, nothing changes; the flags, the comparator and the new-frame flag are always kept |
| `FrameCounter.Decide` | Plugin/Spout/SpoutGL/SpoutFrameCount.cpp:375-401 | the frame number becomes the observed count; a count of 0 is new and keeps the comparator, the flag and the estimator; otherwise the frame is new exactly when the count differs from the last one, which the comparator then holds; a new count feeds the frames since the last one to the fps estimator, and a repeated count leaves it alone; the setting and the disable flag are kept |
| `FrameCounter.Poll` | Plugin/Spout/SpoutGL/SpoutFrameCount.cpp:336-402 | fail-open: when off, disabled or without a handle, the poll is new and changes nothing; otherwise the peek leaves the semaphore as it was and reads its count less one (0 when the count is 0), and it is new exactly when that count is 0 or differs from the last one; the receiver's comparator, flag and estimator are then exactly what `FrameCounter.Decide` makes of that count; a count above the maximum makes the release of 1 fail, and the poll is then new, keeps the unit it took and leaves the receiver's state alone |
| `FrameCounter.PublishesAccumulate` | Plugin/Spout/SpoutGL/SpoutFrameCount.cpp:298-310 | N publishes on a semaphore with room add exactly N to its count and to the sender's frame number, and leave the setting, the disable flag, the new-frame flag and the comparator alone |
| `FrameCounter.FreshChannelObservesPublishCount` | Plugin/Spout/SpoutGL/SpoutFrameCount.cpp:352-376 | on a freshly created semaphore (count 1, maximum LONG_MAX), after N publishes a receiver's poll reads N, leaves the count alone, and is new exactly when N is 0 or differs from its last count |
| `FrameCounter.RepeatedPollIsNotNew` | Plugin/Spout/SpoutGL/SpoutFrameCount.cpp:378-401 | two polls with no publish between them on a nonzero count: the second is not new and reads the same count, so at most one of them is new |
| `FrameCounter.SaturatedPublishesAlternate` | Plugin/Spout/SpoutGL/SpoutFrameCount.cpp:298-310 | on a semaphore at its maximum, every two publishes leave the count at the maximum and add one to the sender's frame number: the first release of 2 fails, the second succeeds |
| `FrameCounter.PollsAtMaximumAlternate` | Plugin/Spout/SpoutGL/SpoutFrameCount.cpp:352-376 | at the maximum, a receiver reads the maximum less one, and after a publish whose release failed it reads the maximum less two |
| `FrameCounter.SenderFrameOutgrowsLong` | Plugin/Spout/SpoutGL/SpoutFrameCount.cpp:298-310 | LONG_MAX + 3 publishes on a fresh semaphore take the sender's frame number to LONG_MAX + 1, past the range of the 32-bit `long` it is stored in |
| `FrameCounter.AlternatingRoundsAreAllNew` | Plugin/Spout/SpoutGL/SpoutFrameCount.cpp:287-402 | when polls alternate one for one with publishes, every poll is new, the count grows by one per round, and the receiver's comparator follows it |
| `FrameCounter.ObservationsNeverDecrease` | Plugin/Spout/SpoutGL/SpoutFrameCount.cpp:298-376 | for any interleaving of whole publish and poll calls on a semaphore with room, the counts the receiver reads never decrease and none is below the starting count less one |
| `Pacing.HoldStep` | Plugin/Spout/SpoutGL/SpoutFrameCount.cpp:473-498 | fps of 0 or below is a no-op; the first call fixes the period at 1000/fps and the baseline without sleeping; later calls keep the period whatever fps they pass, do not sleep when a period has already elapsed, and otherwise sleep so that elapsed time plus sleep is within 1 ms below the period; the baseline is rebased after the sleep |
| `Pacing.PeriodIsKeptUpTo100000` | Plugin/Spout/SpoutGL/SpoutFrameCount.cpp:483-485 | a first call never sleeps, and the period it sets counts as set (so later calls keep it) exactly when fps is at most 100000; above that the next call initialises again |
| `Pacing.HeldCallsAreSpaced` | Plugin/Spout/SpoutGL/SpoutFrameCount.cpp:488-498 | once the period is set, n calls, each with a positive rate, with a clock that never runs backwards and sleeps that last as asked span at least n·(period − 1) ms, and leave the period unchanged |
| `SpoutFrameCount.RefreshRate` | Plugin/Spout/SpoutGL/SpoutFrameCount.cpp:778-793 | the default fps is the frequency of the last display mode listed, or 60 when none is listed |
| `SpoutFrameCount.FrameCount.constructor` | Plugin/Spout/SpoutGL/SpoutFrameCount.cpp:74-112 | a new object has no handles and no names, zero counters, a cleared new-frame flag, the default fps, the registry setting, no application disable and no pacing period |
| `SpoutFrameCount.FrameCount.IsFrameCountEnabled` | Plugin/Spout/SpoutGL/SpoutFrameCount.cpp:267-274 | enabled means the setting is on and the application has not disabled counting |
| `SpoutFrameCount.FrameCount.SetFrameCount` | Plugin/Spout/SpoutGL/SpoutFrameCount.cpp:140-162 | the setting becomes the argument; turning it on clears the application disable only when it was off; turning it off cleans up an enabled channel and clears the disable |
| `SpoutFrameCount.FrameCount.EnableFrameCount` | Plugin/Spout/SpoutGL/SpoutFrameCount.cpp:171-257 | a no-op when counting is off, disabled or the name is empty; otherwise resets counters, accumulators, the fps default, the pacing period and the timers; keeps the handle when it is already open for the same name; otherwise records the name and creates the semaphore or opens the existing one, whose count is unchanged |
| `SpoutFrameCount.FrameCount.ResetCounters` | Plugin/Spout/SpoutGL/SpoutFrameCount.cpp:192-211 | frame numbers, fps accumulators and the previous-frame time are zeroed, the fps is the default, and the pacing period and baseline are cleared |
| `SpoutFrameCount.FrameCount.OpenCountSemaphore` | Plugin/Spout/SpoutGL/SpoutFrameCount.cpp:221-253 | the old handle is dropped and the name recorded; the handle becomes the semaphore registered under "<name>_Count_Semaphore" with its count kept, or a fresh one (count 1, maximum LONG_MAX), or null when the name holds another kind of object |
| `SpoutFrameCount.FrameCount.DisableFrameCount` | Plugin/Spout/SpoutGL/SpoutFrameCount.cpp:260-264 | cleans up and leaves counting disabled by the application |
| `SpoutFrameCount.FrameCount.CleanupFrameCount` | Plugin/Spout/SpoutGL/SpoutFrameCount.cpp:406-431 | without a handle nothing changes; otherwise the handle is closed, the sender name cleared and the counters, accumulators and fps default reset, with the flags kept |
| `SpoutFrameCount.FrameCount.SetNewFrame` | Plugin/Spout/SpoutGL/SpoutFrameCount.cpp:287-322 | the object and the shared semaphore change exactly as `FrameCounter.Publish` says, and the handles, names and pacing state stay as they were |
| `SpoutFrameCount.FrameCount.GetNewFrame` | Plugin/Spout/SpoutGL/SpoutFrameCount.cpp:336-402 | the object, the shared semaphore and the result are exactly those of `FrameCounter.Poll`, and the handles, names and pacing state stay as they were |
| `SpoutFrameCount.FrameCount.IsFrameNew` | Plugin/Spout/SpoutGL/SpoutFrameCount.cpp:446-449 | reports the new-frame flag of the channel state, without changing anything |
| `SpoutFrameCount.FrameCount.GetSenderFps` | Plugin/Spout/SpoutGL/SpoutFrameCount.cpp:452-455 | reports the estimator's fps, without changing anything |
| `SpoutFrameCount.FrameCount.GetSenderFrame` | Plugin/Spout/SpoutGL/SpoutFrameCount.cpp:458-461 | reports the channel's frame number, without changing anything |
| `SpoutFrameCount.FrameCount.UpdateSenderFps` | Plugin/Spout/SpoutGL/SpoutFrameCount.cpp:734-771 | the estimator fields change exactly as `FrameCounter.UpdateFps` says, and the accumulator stays within [0, 16] |
| `SpoutFrameCount.FrameCount.HoldFps` | Plugin/Spout/SpoutGL/SpoutFrameCount.cpp:473-515 | the period, the baseline and the requested sleep are those of `Pacing.HoldStep`; nothing else changes |
| `SpoutFrameCount.FrameCount.IsKeyedMutex` | Plugin/Spout/SpoutGL/SpoutFrameCount.cpp:715-728 | a null texture is never keyed; a texture is keyed exactly when D3D11_RESOURCE_MISC_SHARED_KEYEDMUTEX is among its creation flags, whatever else they hold |
| `SpoutFrameCount.FrameCount.CheckTextureAccess` | Plugin/Spout/SpoutGL/SpoutFrameCount.cpp:527-535 | a texture carrying the keyed-mutex flag is waited on through its keyed mutex, and the named mutex is left alone; any other texture, including null, goes through the named mutex, which a granting outcome gives to this object, and its key is left alone |
| `SpoutFrameCount.FrameCount.AllowTextureAccess` | Plugin/Spout/SpoutGL/SpoutFrameCount.cpp:537-543 | releases the keyed mutex of a keyed texture or else one of this object's acquisitions of the named mutex, never both; a named mutex this object does not hold is left as it was |
| `SpoutFrameCount.FrameCount.CreateAccessMutex` | Plugin/Spout/SpoutGL/SpoutFrameCount.cpp:546-587 | opens or creates "<name>_SpoutAccessMutex"; on success the handle is that mutex; when the name holds another kind of object it fails and keeps the previous handle; the frame counter is untouched |
| `SpoutFrameCount.FrameCount.CloseAccessMutex` | Plugin/Spout/SpoutGL/SpoutFrameCount.cpp:590-596 | the mutex handle is dropped; nothing else changes |
| `SpoutFrameCount.FrameCount.CheckAccess` | Plugin/Spout/SpoutGL/SpoutFrameCount.cpp:604-637 | true without a handle, and otherwise exactly on WAIT_OBJECT_0; a granting outcome makes this object the owner with one more acquisition, so an abandoned wait returns false although this object now owns the mutex |
| `SpoutFrameCount.FrameCount.AllowAccess` | Plugin/Spout/SpoutGL/SpoutFrameCount.cpp:641-650 | without a handle nothing happens; otherwise one of this object's acquisitions is released, the last one leaving the mutex unowned, and a mutex this object does not hold, whoever owns it, stays as it is |
| `SpoutFrameCount.FrameCount.CheckKeyedAccess` | Plugin/Spout/SpoutGL/SpoutFrameCount.cpp:669-699 | false for a null texture or one without a keyed mutex; otherwise true exactly on WAIT_OBJECT_0, and the key is held afterwards exactly when the result is true |
| `SpoutFrameCount.FrameCount.AllowKeyedAccess` | Plugin/Spout/SpoutGL/SpoutFrameCount.cpp:702-713 | the key of a texture with a keyed mutex is free afterwards; a null texture or one without a keyed mutex is untouched |
| `SpoutFrameCount.SenderToReceiver` | Plugin/Spout/SpoutGL/SpoutFrameCount.cpp:171-402 | a sender and a receiver enabling the same name share one semaphore; after one publish the receiver's poll is new and reads frame 1, and a second poll is not new |
| `SpoutFrameCount.DisableThenReenable` | Plugin/Spout/SpoutGL/SpoutFrameCount.cpp:140-264 | after a publish and `DisableFrameCount`, the frame number is 0 and the fps is the default; `EnableFrameCount` is refused, and is still refused after `SetFrameCount(true)`; after `SetFrameCount(false)` then `SetFrameCount(true)` it opens the semaphore again |
| `SpoutFrameCount.SharedAccessMutex` | Plugin/Spout/SpoutGL/SpoutFrameCount.cpp:546-650 | a sender and a receiver, on different threads, open the same "<name>_SpoutAccessMutex"; while the sender holds it, the receiver's `AllowAccess` does not free it and the receiver's wait, given a timeout, fails; the sender's `AllowAccess` then leaves it unowned |

## Left out

- Registry access (source lines 89-95, 145, 158) is not modelled. The constructor takes the
  "Framecount" registry value as a boolean, and `SetFrameCount` does not write it back.
- SpoutFrameCount.FrameCount.EnableFrameCount: a name too long for the 256-character buffers makes `strcpy_s` and `sprintf_s` (source lines 229, 232) call the C runtime's invalid-parameter handler. That abort is not modelled, so such names are excluded on the enabled path; with counting off or disabled, or with an empty name, any name is accepted.
- SpoutFrameCount.FrameCount.CreateAccessMutex: the same holds for a name too long for the 512-character buffer formatted at line 553, which is excluded by the precondition.
- Kernel.Namespace.CreateSemaphore: creating a semaphore under a free name never fails in the model. The source's "unknown error" path (lines 248-251, e.g. access denied by another session's security descriptor) appears only as a clash with an object of another kind.
- Kernel.Namespace.CreateMutex: likewise, creating a mutex under a free name never fails in the model. The source's NULL-handle path (lines 564-567) appears only as a clash with an object of another kind.
- Kernel.NamedMutex.Release: Windows tracks a mutex's owner per thread; the model tracks it per caller object, and each `FrameCount` stands for one thread of its own. Two consequences are not modelled. With a sender and a receiver of the same name on one thread, the receiver's `AllowAccess` would release the thread's acquisition and free the mutex; in the model it changes nothing (`SpoutFrameCount.SharedAccessMutex`). With one `FrameCount` used from two threads, `CheckAccess` on one thread followed by `AllowAccess` on the other would fail in Windows; in the model it succeeds.
- Kernel.NamedMutex.Wait: the outcome is not checked against the current owner. A granting outcome while another caller owns the mutex, which Windows reports only once that owner has released or abandoned it, hands the mutex to the caller.
- FrameCounter.ObservationsNeverDecrease: each publish and each poll is one atomic step. The source's callers make them so by holding the access mutex around `SetNewFrame` and `GetNewFrame` (lines 281-283, 330-332). Without that lock, a poll that falls between a publish's wait and its release of 2 reads one less, so the readings could go down.
- Kernel object lifetime is not modelled. Windows destroys a named object when the last
  handle to it is closed. The model keeps every object in the namespace, as if another
  process still held it open. Closing a handle (`CloseHandle`, and the destructor at
  lines 115-132) only drops the reference.
- Each named mutex and keyed mutex wait outcome is a parameter. The 67 ms timeout, the
  other processes and devices, and how the OS schedules them are not modelled. So the
  mutual exclusion between processes is not modelled either.
- WAIT_FAILED on a semaphore handle that is not NULL but invalid is not modelled. A
  handle is either null or a live object.
- Clock reads are parameters. `StartCounter`, `GetCounter` and the non-chrono `#else`
  branches are not modelled. In `UpdateSenderFps`, the two clock reads at lines 742
  and 746 are one `now`.
- The microsecond truncation of `duration_cast` is not modelled. Doubles are exact
  `real`s.
- `HoldFps` does not sleep. It returns the sleep it would request: the `(long)`
  truncation of the remaining period, as `Floor`. The clock after the sleep is the
  `resumed` parameter.
- The re-allocation of the three `time_point` objects in `EnableFrameCount`
  (lines 203-205) is not modelled. Only its effect is: the time points read as the
  clock's epoch, 0.
- COM reference counting (`QueryInterface` and `Release`) and the keyed-mutex key value
  (always 0) are not modelled.
- The display modes are fixed when the object is constructed. A display change at run
  time is not modelled.
- Logging and `printf` are not modelled.
- Frame numbers are unbounded integers, and the semaphore's maximum does not bound the
  sender's. At the maximum, publishes alternate between a release of 2 that fails and
  one that succeeds, so the count stays at `LONG_MAX` and the sender's `m_FrameCount`
  still grows by one every two publishes (`FrameCounter.SaturatedPublishesAlternate`).
  It passes `LONG_MAX`, and the 32-bit `long` at line 308 overflows, `LONG_MAX` + 3
  publishes after the semaphore is created (`FrameCounter.SenderFrameOutgrowsLong`),
  about 414 days at 60 fps. The unbounded `int` does not model that overflow. A
  receiver's readings then alternate between `LONG_MAX` − 1 and `LONG_MAX` − 2
  (`FrameCounter.PollsAtMaximumAlternate`).
- `FrameCounter.PublishesAccumulate`, `FrameCounter.AlternatingRoundsAreAllNew` and
  `FrameCounter.ObservationsNeverDecrease` need the semaphore to have room for every
  publish. At the maximum, a publish's release fails and leaves the count one lower,
  as `FrameCounter.Publish` states. At 60 fps that takes about 414 days.
- The KlakSpout plugin files (`KlakSpout.cpp`, `KlakSpoutSharedObject.h`,
  `KlakSpoutGlobals.h`) are not part of this model. They are Unity plumbing, threads and
  calls into Spout's DX11/DX12 senders.
