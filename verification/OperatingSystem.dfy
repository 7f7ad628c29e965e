/** The system calls process_manager.cpp and watcher.cpp make; every choice the kernel has is arbitrary. */
module OperatingSystem {
  import opened Processes

  datatype Signal = NoSignal | Chld | Term

  function Running(k: Kernel): set<int> {
    k.children.Keys - k.zombies
  }

  /** Other processes' effect on termination measures: exits only shrink the running set and may set the bit. */
  ghost predicate OnlyExits(before: Kernel, after: Kernel) {
    Running(after) <= Running(before) && (Running(after) == Running(before) ==> after.chldPending == before.chldPending)
  }

  class Os {
    var k: Kernel
    var termsComing: nat // the SIGTERM and SIGINT others will still send

    constructor (terms: nat)
      ensures k == BOOT
    {
      k, termsComing := BOOT, terms;
    }

    method Fork() returns (pid: int)
      modifies this`k
      ensures pid > 0 ==> CanFork(old(k), pid) && k == AfterFork(old(k), pid)
      ensures pid <= 0 ==> k == AfterForkFailure(old(k))
    {
      var choice: int := *;
      if choice <= 0 || choice in k.children {
        k := AfterForkFailure(k);
        return -1;
      }
      k := AfterFork(k, choice);
      pid := choice;
    }

    method Kill(pid: int)
      modifies this`k
      ensures k == AfterKill(old(k), pid)
    {
      k := AfterKill(k, pid);
    }

    /** Any running children may exit before the call looks for one. */
    method SomeExit() returns (exits: set<int>)
      modifies this`k
      ensures CanExit(old(k), exits) && k == AfterExit(old(k), exits)
    {
      var choice: set<int> := *;
      exits := choice * Running(k);
      k := AfterExit(k, exits);
    }

    /** waitpid(-1, ..., WNOHANG): any exited child, or no pid when there is none. */
    method WaitNoHang() returns (pid: int, ghost exits: set<int>)
      requires Sound(k)
      modifies this`k
      ensures CanExit(old(k), exits)
      ensures var now := AfterExit(old(k), exits);
              if pid > 0 then pid in now.zombies && pid in now.children && k == AfterReap(now, pid)
              else now.zombies == {} && k == now
    {
      exits := SomeExit();
      if k.zombies == {} {
        return 0, exits;
      }
      pid := Pick(k.zombies);
      k := AfterReap(k, pid);
    }

    /** waitpid(-1, ..., 0): -1 without children, else any child, once it has exited. */
    method WaitBlocking() returns (pid: int, ghost exits: set<int>)
      requires Sound(k)
      modifies this`k
      ensures CanExit(old(k), exits)
      ensures var now := AfterExit(old(k), exits);
              if pid > 0 then pid in now.zombies && pid in now.children && k == AfterReap(now, pid)
              else now.children == map[] && k == now
    {
      if k.children == map[] {
        assert AfterExit(k, {}) == k;
        return -1, {};
      }
      pid := AnyChild();
      var others: set<int> := *;
      var dying := (others + {pid}) * Running(k);
      exits := dying;
      k := AfterReap(AfterExit(k, dying), pid);
    }

    method AnyChild() returns (pid: int)
      requires k.children != map[]
      ensures pid in k.children
    {
      assert k.children.Keys != {};
      pid := Pick(k.children.Keys);
    }

    /** read() on the signalfd: one pending signal, which is cleared; SIGCHLD is not overlooked. */
    method ReadSignal() returns (sig: Signal, ghost exits: set<int>)
      modifies this
      ensures CanExit(old(k), exits)
      ensures var now := AfterExit(old(k), exits);
              match sig
              case NoSignal => k == now && !k.chldPending && termsComing == old(termsComing)
              case Chld => now.chldPending && k == now.(chldPending := false) && termsComing == old(termsComing)
              case Term => k == now && termsComing < old(termsComing)
    {
      exits := SomeExit();
      var arrived: bool := *;
      if arrived && termsComing > 0 {
        termsComing := termsComing - 1;
        return Term, exits;
      }
      if k.chldPending {
        k := k.(chldPending := false);
        return Chld, exits;
      }
      return NoSignal, exits;
    }
  }

  method Pick<T(==)>(s: set<T>) returns (x: T)
    requires s != {}
    ensures x in s
  {
    x :| x in s;
  }
}
