/** The operating-system and graphics objects the frame counter talks to: the named
    counting semaphore, the named mutex, a texture's keyed mutex, and the kernel's
    namespace of named objects shared by every process on the host. */
module Kernel {

  datatype Option<+T> = None | Some(value: T)

  /** LONG_MAX of a 32-bit Windows `long`. */
  const LongMax: nat := 0x7FFF_FFFF

  /** Outcome of WaitForSingleObject / IDXGIKeyedMutex::AcquireSync. */
  datatype WaitResult = WaitObject0 | WaitAbandoned | WaitTimeout | WaitFailed
  {
    /** Both a plain success and an abandoned wait hand ownership to the caller. */
    predicate GrantsOwnership() {
      this == WaitObject0 || this == WaitAbandoned
    }
  }

  /** Value view of a counting semaphore. */
  datatype Sem = Sem(count: nat, maximum: nat)

  /** ReleaseSemaphore(n) succeeds only for a positive release that stays within the maximum. */
  predicate CanRelease(s: Sem, n: int) {
    0 < n && s.count + n <= s.maximum
  }

  /** A named counting semaphore. */
  class Semaphore {
    var count: nat
    const maximum: nat

    function View(): Sem
      reads this
    {
      Sem(count, maximum)
    }

    constructor (initial: nat, maximum: nat)
      ensures View() == Sem(initial, maximum)
    {
      count := initial;
      this.maximum := maximum;
    }

    /** WaitForSingleObject(h, 0): takes one unit if one is available, never blocks. */
    method WaitZero() returns (r: WaitResult)
      modifies this
      ensures r == if old(count) > 0 then WaitObject0 else WaitTimeout
      ensures count == if old(count) > 0 then old(count) - 1 else old(count)
    {
      if count > 0 {
        count := count - 1;
        r := WaitObject0;
      } else {
        r := WaitTimeout;
      }
    }

    /** ReleaseSemaphore(h, n, &previous). `previous` is only written on success. */
    method Release(n: int) returns (ok: bool, previous: nat)
      modifies this
      ensures ok == CanRelease(old(View()), n)
      ensures ok ==> previous == old(count) && count == old(count) + n
      ensures !ok ==> count == old(count)
    {
      ok := CanRelease(View(), n);
      previous := 0;
      if ok {
        previous := count;
        count := count + n;
      }
    }
  }

  /** A named mutex, shared by every process that opens it: the thread that owns it
      (each caller is an object standing for a thread of its own) and how many times that
      owner has acquired it without releasing it. */
  class NamedMutex {
    var owner: object?
    var depth: nat

    /** How many acquisitions `caller` holds. */
    function HeldBy(caller: object): nat
      reads this
    {
      if owner == caller then depth else 0
    }

    constructor ()
      ensures owner == null && depth == 0
    {
      owner := null;
      depth := 0;
    }

    /** WaitForSingleObject(h, timeout). The outcome is decided by the other processes.
        An owner may acquire its mutex again; a granting outcome makes the caller the
        only owner. */
    method Wait(caller: object, outcome: WaitResult)
      modifies this
      ensures outcome.GrantsOwnership() ==>
        owner == caller && HeldBy(caller) == old(HeldBy(caller)) + 1
      ensures !outcome.GrantsOwnership() ==> owner == old(owner) && depth == old(depth)
    {
      if outcome.GrantsOwnership() {
        if owner == caller {
          depth := depth + 1;
        } else {
          owner := caller;
          depth := 1;
        }
      }
    }

    /** ReleaseMutex fails, and changes nothing, when the caller does not own the mutex;
        the last release by the owner leaves the mutex unowned. */
    method Release(caller: object) returns (ok: bool)
      modifies this
      ensures ok == (old(HeldBy(caller)) > 0)
      ensures ok ==> HeldBy(caller) == old(HeldBy(caller)) - 1
      ensures ok ==> (HeldBy(caller) == 0 ==> owner == null) && (HeldBy(caller) > 0 ==> owner == caller)
      ensures !ok ==> owner == old(owner) && depth == old(depth)
    {
      ok := owner == caller && depth > 0;
      if ok {
        depth := depth - 1;
        if depth == 0 {
          owner := null;
        }
      }
    }
  }

  /** The mutex records a single owner, so two callers that both hold acquisitions are
      the same caller. This is a fact about the representation: which caller a wait
      grants the mutex to is decided by the outcome passed to `Wait`. */
  lemma OneOwnerAtATime(m: NamedMutex, a: object, b: object)
    requires m.HeldBy(a) > 0 && m.HeldBy(b) > 0
    ensures a == b
  {
  }

  /** D3D11_RESOURCE_MISC_SHARED_KEYEDMUTEX */
  const SharedKeyedMutexFlag: bv32 := 0x100

  /** A DX11 texture: its creation flags, whether it hands out an IDXGIKeyedMutex
      interface, and whether key 0 of that keyed mutex is held by this device. */
  class Texture {
    const miscFlags: bv32
    const hasKeyedMutex: bool
    var keyHeld: bool

    constructor (miscFlags: bv32, hasKeyedMutex: bool)
      ensures this.miscFlags == miscFlags && this.hasKeyedMutex == hasKeyedMutex && !keyHeld
    {
      this.miscFlags := miscFlags;
      this.hasKeyedMutex := hasKeyedMutex;
      keyHeld := false;
    }

    /** AcquireSync(0, timeout). The outcome is decided by the other devices. */
    method AcquireSync(outcome: WaitResult)
      requires hasKeyedMutex
      modifies this
      ensures keyHeld == (old(keyHeld) || outcome.GrantsOwnership())
    {
      if outcome.GrantsOwnership() {
        keyHeld := true;
      }
    }

    /** ReleaseSync(0): gives up the key if held; a release of a key not held fails harmlessly. */
    method ReleaseSync() returns (ok: bool)
      requires hasKeyedMutex
      modifies this
      ensures ok == old(keyHeld) && !keyHeld
    {
      ok := keyHeld;
      keyHeld := false;
    }
  }

  datatype NamedObject = SemaphoreObject(sem: Semaphore) | MutexObject(mutex: NamedMutex)

  /** The kernel's namespace of named objects, shared by all processes. */
  class Namespace {
    var objects: map<string, NamedObject>

    constructor ()
      ensures objects == map[]
    {
      objects := map[];
    }

    /** CreateSemaphoreA: opens the semaphore already registered under `name` (keeping
        its count and maximum), fails when the name belongs to another kind of object
        (ERROR_INVALID_HANDLE) or the counts are out of range, and otherwise creates one. */
    method CreateSemaphore(name: string, initial: nat, maximum: nat) returns (h: Semaphore?)
      modifies this
      ensures name in old(objects) ==>
        objects == old(objects) &&
        h == (if old(objects)[name].SemaphoreObject? then old(objects)[name].sem else null)
      ensures name !in old(objects) && !(0 < maximum && initial <= maximum) ==>
        objects == old(objects) && h == null
      ensures name !in old(objects) && 0 < maximum && initial <= maximum ==>
        h != null && fresh(h) && h.View() == Sem(initial, maximum) &&
        objects == old(objects)[name := SemaphoreObject(h)]
    {
      if name in objects {
        h := if objects[name].SemaphoreObject? then objects[name].sem else null;
      } else if 0 < maximum && initial <= maximum {
        h := new Semaphore(initial, maximum);
        objects := objects[name := SemaphoreObject(h)];
      } else {
        h := null;
      }
    }

    /** CreateMutexA with no initial owner: opens the mutex already registered under
        `name`, fails when the name belongs to another kind of object, and otherwise creates one. */
    method CreateMutex(name: string) returns (h: NamedMutex?)
      modifies this
      ensures name in old(objects) ==>
        objects == old(objects) &&
        h == (if old(objects)[name].MutexObject? then old(objects)[name].mutex else null)
      ensures name !in old(objects) ==>
        h != null && fresh(h) && h.owner == null && h.depth == 0 &&
        objects == old(objects)[name := MutexObject(h)]
    {
      if name in objects {
        h := if objects[name].MutexObject? then objects[name].mutex else null;
      } else {
        h := new NamedMutex();
        objects := objects[name := MutexObject(h)];
      }
    }
  }
}
