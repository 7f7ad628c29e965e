/** The part of the operating system the watcher relies on: its child processes and SIGCHLD. */
module Processes {

  /**
   * Pids are recycled, so each child also has a birth number. `children` holds the unreaped ones,
   * of which `zombies` have exited; `termed` and `reaped` are the births sent SIGTERM and reaped.
   * `attempts` and `signals` count the calls of fork() and kill(), and `strays` those of kill() on a
   * pid that is not an unreaped child.
   */
  datatype Kernel = Kernel(
    children: map<int, nat>,
    zombies: set<int>,
    forks: nat,
    attempts: nat,
    signals: nat,
    termed: set<nat>,
    reaped: set<nat>,
    strays: nat,
    chldPending: bool)

  const BOOT := Kernel(map[], {}, 0, 0, 0, {}, {}, 0, false)

  /** fork() never returns the pid of an unreaped child. */
  predicate CanFork(k: Kernel, pid: int) {
    pid > 0 && pid !in k.children
  }

  function AfterFork(k: Kernel, pid: int): Kernel {
    k.(children := k.children[pid := k.forks], forks := k.forks + 1, attempts := k.attempts + 1)
  }

  /** fork() may also fail. */
  function AfterForkFailure(k: Kernel): Kernel {
    k.(attempts := k.attempts + 1)
  }

  /** kill(pid, SIGTERM). */
  function AfterKill(k: Kernel, pid: int): Kernel {
    var sent := k.(signals := k.signals + 1);
    if pid in k.children then sent.(termed := k.termed + {k.children[pid]}) else sent.(strays := k.strays + 1)
  }

  /** The children among some pids. */
  function Births(k: Kernel, pids: set<int>): set<nat> {
    set p | p in pids && p in k.children :: k.children[p]
  }

  /** How many of them are no children. */
  function Strangers(k: Kernel, pids: set<int>): nat {
    |pids - k.children.Keys|
  }

  function AfterKillAll(k: Kernel, pids: set<int>): Kernel {
    k.(termed := k.termed + Births(k, pids),
       signals := k.signals + |pids|,
       strays := k.strays + Strangers(k, pids))
  }

  /** Some running children exit; however many do, one SIGCHLD bit is set. */
  predicate CanExit(k: Kernel, pids: set<int>) {
    pids <= k.children.Keys - k.zombies
  }

  function AfterExit(k: Kernel, pids: set<int>): Kernel {
    k.(zombies := k.zombies + pids, chldPending := k.chldPending || pids != {})
  }

  /** waitpid() returns an exited child, whose pid may then be used again. */
  function AfterReap(k: Kernel, pid: int): Kernel
    requires pid in k.children
  {
    k.(children := k.children - {pid}, zombies := k.zombies - {pid}, reaped := k.reaped + {k.children[pid]})
  }

  /** Births are distinct, and each is either an unreaped child or reaped, never both. */
  ghost predicate Sound(k: Kernel) {
    && k.zombies <= k.children.Keys
    && (forall p | p in k.children :: 0 < p && k.children[p] < k.forks && k.children[p] !in k.reaped)
    && (forall p, q | p in k.children && q in k.children && k.children[p] == k.children[q] :: p == q)
    && (forall c | c in k.reaped :: c < k.forks)
    && (forall c: nat | c < k.forks :: c in k.reaped || exists p :: p in k.children && k.children[p] == c)
  }

  lemma ForkSound(k: Kernel, pid: int)
    requires Sound(k) && CanFork(k, pid)
    ensures Sound(AfterFork(k, pid))
  {
    var k' := AfterFork(k, pid);
    forall c: nat | c < k'.forks ensures c in k'.reaped || exists p :: p in k'.children && k'.children[p] == c {
      if c == k.forks {
        assert pid in k'.children && k'.children[pid] == c;
      } else if c !in k.reaped {
        var p :| p in k.children && k.children[p] == c;
        assert p in k'.children && k'.children[p] == c;
      }
    }
  }

  lemma ReapSound(k: Kernel, pid: int)
    requires Sound(k) && pid in k.children
    ensures Sound(AfterReap(k, pid)) && |AfterReap(k, pid).children| == |k.children| - 1
  {
    var k' := AfterReap(k, pid);
    assert k'.children.Keys == k.children.Keys - {pid};
    forall c: nat | c < k'.forks ensures c in k'.reaped || exists p :: p in k'.children && k'.children[p] == c {
      if c !in k'.reaped {
        var p :| p in k.children && k.children[p] == c;
        assert p in k'.children && k'.children[p] == c;
      }
    }
  }

  lemma KillAllStep(k: Kernel, pids: set<int>, p: int)
    requires p in pids
    ensures AfterKillAll(AfterKill(k, p), pids - {p}) == AfterKillAll(k, pids)
  {
    hide Births, Strangers;
    var rest := pids - {p};
    BirthsStep(k, pids, p);
    StrangersStep(k, pids, p);
    SameChildren(k, AfterKill(k, p), rest);
    if p in k.children {
      UnionSwap(k.termed, {k.children[p]}, Births(k, rest));
    }
  }

  lemma UnionSwap<T>(a: set<T>, b: set<T>, c: set<T>)
    ensures a + b + c == a + (c + b)
  {
  }

  lemma StrangersStep(k: Kernel, pids: set<int>, p: int)
    requires p in pids
    ensures Strangers(k, pids) == Strangers(k, pids - {p}) + if p in k.children then 0 else 1
  {
    var keys := k.children.Keys;
    if p in keys {
      assert pids - keys == pids - {p} - keys;
    } else {
      assert pids - keys == (pids - {p} - keys) + {p};
    }
  }

  lemma SameChildren(k: Kernel, k': Kernel, pids: set<int>)
    requires k'.children == k.children
    ensures Births(k', pids) == Births(k, pids) && Strangers(k', pids) == Strangers(k, pids)
  {
  }

  lemma BirthsStep(k: Kernel, pids: set<int>, p: int)
    requires p in pids
    ensures p in k.children ==> Births(k, pids) == Births(k, pids - {p}) + {k.children[p]}
    ensures p !in k.children ==> Births(k, pids) == Births(k, pids - {p})
  {
    var rest := pids - {p};
    forall c | c in Births(k, pids) ensures c in Births(k, rest) || (p in k.children && c == k.children[p]) {
      var q :| q in pids && q in k.children && k.children[q] == c;
      assert q == p || q in rest;
    }
  }

  /** Signalling children only: nobody else is hit and each of them counts as told to stop. */
  lemma KillAllChildren(k: Kernel, pids: set<int>)
    requires pids <= k.children.Keys
    ensures AfterKillAll(k, pids).strays == k.strays
    ensures k.termed <= AfterKillAll(k, pids).termed
    ensures forall p | p in pids :: k.children[p] in AfterKillAll(k, pids).termed
    ensures Sound(k) ==> Sound(AfterKillAll(k, pids))
  {
    assert pids - k.children.Keys == {};
    SoundFrame(k, AfterKillAll(k, pids));
  }

  lemma SoundFrame(k: Kernel, k': Kernel)
    requires k'.children == k.children && k'.zombies == k.zombies && k'.forks == k.forks && k'.reaped == k.reaped
    ensures Sound(k) ==> Sound(k')
  {
  }

  lemma KillNone(k: Kernel)
    ensures AfterKillAll(k, {}) == k
  {
    assert {} - k.children.Keys == {};
  }
}
