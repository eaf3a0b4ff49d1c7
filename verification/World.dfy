/** The Docker daemon as this program sees it: the managed containers, the
    ids handed out so far, and a clock. */
module World {
  type RepoName = string
  type Id = nat

  /** One container carrying the managed label, with the repo label it was started with. */
  datatype Container = Container(repo: RepoName, name: string, created: nat, running: bool)

  /** `used` remembers every id the daemon has ever handed out, with the repo it was for. */
  datatype Daemon = Daemon(containers: map<Id, Container>, used: map<Id, RepoName>, now: nat)

  predicate Consistent(d: Daemon) {
    forall id | id in d.containers ::
      && id in d.used && d.used[id] == d.containers[id].repo
      && d.containers[id].created <= d.now
  }

  /** The ids of the containers of `repo` whose state is "running". */
  function RunningSet(d: Daemon, repo: RepoName): set<Id> {
    set id | id in d.containers && d.containers[id].repo == repo && d.containers[id].running
  }

  function RunningOf(d: Daemon, repo: RepoName): nat { |RunningSet(d, repo)| }

  /** What `docker ps -a` with both label filters lists: every container of the repo, dead or alive. */
  function ListedSet(d: Daemon, repo: RepoName): set<Id> {
    set id | id in d.containers && d.containers[id].repo == repo
  }

  function Start(d: Daemon, id: Id, repo: RepoName, name: string): Daemon {
    d.(containers := d.containers[id := Container(repo, name, d.now, true)],
       used := d.used[id := repo])
  }

  function Stop(d: Daemon, id: Id): Daemon
    requires id in d.containers
  {
    d.(containers := d.containers[id := d.containers[id].(running := false)])
  }

  function Discard(d: Daemon, id: Id): Daemon {
    d.(containers := d.containers - {id})
  }

  /** What time and other parties may do between two observations: containers
      keep their identity, a container that is not running never runs again
      (`--restart no`), ids are never handed out twice, and the clock does not
      go back. */
  predicate Evolves(a: Daemon, b: Daemon) {
    && Consistent(b)
    && a.now <= b.now
    && (forall id | id in a.used :: id in b.used && b.used[id] == a.used[id])
    && (forall id | id in b.containers && id in a.containers ::
          var x, y := a.containers[id], b.containers[id];
          y.repo == x.repo && y.name == x.name && y.created == x.created && (y.running ==> x.running))
    && (forall id | id in b.containers && id !in a.containers ::
          id !in a.used && a.now <= b.containers[id].created)
  }

  lemma EvolvesTransitive(a: Daemon, b: Daemon, c: Daemon)
    requires Consistent(a) && Evolves(a, b) && Evolves(b, c)
    ensures Evolves(a, c)
  {
    forall id | id in c.containers && id in a.containers
      ensures c.containers[id].repo == a.containers[id].repo
      ensures c.containers[id].name == a.containers[id].name
      ensures c.containers[id].created == a.containers[id].created
      ensures c.containers[id].running ==> a.containers[id].running
    {
      assert id in a.used;
      assert id in b.used;
      assert id in b.containers;
    }
  }

  lemma RunningAfterStart(d: Daemon, id: Id, repo: RepoName, name: string, other: RepoName)
    requires id !in d.containers
    ensures RunningSet(Start(d, id, repo, name), other)
         == RunningSet(d, other) + (if other == repo then {id} else {})
  {
  }
}
