/** The calls a command makes: Docker and the file system, any of which may fail.
    A failed call may or may not have taken effect. */
module Engine {
  import opened Text
  import opened Naming
  import opened World

  /** Calls that can be made to fail on their own. */
  datatype Site = Elsewhere | RepositoryConf | Readiness | SavingRecord | StateDirectory

  /** Which calls fail: none, any at any time, or exactly those of one site, without effect. */
  datatype Faults = Never | Anytime | Only(site: Site)

  class Machine {
    var w: Host
    const faults: Faults

    /** Every state the host has been in, the present one last. */
    ghost var history: seq<Host>

    /** So far no command used a name that clashes with a recorded instance's. */
    ghost var unclashed: bool

    /** So far no configuration was rewritten under an unrecorded container. */
    ghost var unmixed: bool

    /** A state that may come next. */
    ghost predicate Keeps(next: Host)
      reads `unclashed, `unmixed
    {
      (unclashed ==> Safe(next)) && (unmixed ==> Sealed(next))
    }

    ghost predicate Valid()
      reads this
    {
      history != [] && history[|history| - 1] == w && forall k | 0 <= k < |history| :: Keeps(history[k])
    }

    constructor (w: Host, faults: Faults)
      ensures Valid() && this.w == w && this.faults == faults && history == [w]
      ensures unclashed == Safe(w) && unmixed == Sealed(w)
    {
      this.w, this.faults := w, faults;
      history := [w];
      unclashed, unmixed := Safe(w), Sealed(w);
    }

    /** A call at this site cannot fail. */
    predicate Sure(site: Site) {
      faults.Never? || (faults.Only? && faults.site != site)
    }

    method Become(next: Host)
      requires Valid() && Keeps(next)
      modifies `w, `history
      ensures Valid() && w == next && history == old(history) + [next]
    {
      w := next;
      history := history + [next];
    }

    /** A call whose only effect is to turn the host into `next`. */
    method Call(next: Host, site: Site := Elsewhere) returns (ok: bool)
      requires Valid() && Keeps(next)
      modifies `w, `history
      ensures Valid() && old(history) <= history
      ensures w == next || (w == old(w) && !ok)
      ensures Sure(site) ==> ok
      ensures faults == Only(site) ==> !ok && w == old(w)
    {
      if faults == Only(site) { return false; }
      var fails: bool, tookEffect: bool := *, *;
      if faults.Anytime? && fails {
        if tookEffect { Become(next); }
        return false;
      }
      Become(next);
      ok := true;
    }

    /** A call without effect on the host: a query, an image build, the shared network. */
    method Ask(site: Site := Elsewhere) returns (ok: bool)
      ensures Sure(site) ==> ok
      ensures faults == Only(site) ==> !ok
    {
      ok := faults != Only(site);
      if faults.Anytime? { ok := *; }
    }

    // ---------- Docker ----------

    /** Starts or stops a container from outside; a start reads the mounted files, and
        fails when they are not there. */
    method SetRunning(c: string, running: bool)
      requires Valid() && c in w.containers
      modifies `w, `history
      ensures Valid() && old(history) <= history
      ensures running && CanBoot(old(w), old(w).containers[c]) ==>
        w == old(w).(containers := old(w).containers[c := Booted(old(w), old(w).containers[c])])
      ensures !(running && CanBoot(old(w), old(w).containers[c])) ==>
        w == old(w).(containers := old(w).containers[c := Stopped(old(w).containers[c])])
    {
      hide Safe, Sealed;
      var k := w.containers[c];
      RunningKeeps(w, c);
      k := if running && CanBoot(w, k) then Booted(w, k) else Stopped(k);
      Become(w.(containers := w.containers[c := k]));
    }

    /** Stops a running container and removes it if it exists. */
    method StopAndRemove(c: string) returns (ok: bool)
      requires Valid()
      modifies `w, `history
      ensures Valid() && old(history) <= history
      ensures w == old(w).(containers := w.containers) && w.containers - {c} == old(w).containers - {c}
      ensures ok ==> c !in w.containers
      ensures Sure(Elsewhere) ==> ok
    {
      hide Safe, Sealed;
      ok := Ask();                             // container_running
      if !ok { return; }
      if c in w.containers && w.containers[c].running {
        RunningKeeps(w, c);
        ok := Call(w.(containers := w.containers[c := Stopped(w.containers[c])]));
        if !ok { return; }
      }
      ok := Ask();                             // container_exists
      if !ok { return; }
      if c in w.containers {
        ok := RemoveContainer(c);
      }
    }

    method RemoveContainer(c: string) returns (ok: bool)
      requires Valid()
      modifies `w, `history
      ensures Valid() && old(history) <= history
      ensures w == old(w) || w == old(w).(containers := old(w).containers - {c})
      ensures ok ==> c !in w.containers
      ensures c in old(w).containers && Sure(Elsewhere) ==> ok
      ensures c !in old(w).containers ==> w == old(w) && !ok
    {
      hide Safe, Sealed;
      if c !in w.containers { return false; }
      RemovalKeeps(w, c);
      ok := Call(w.(containers := w.containers - {c}));
    }

    predicate InUse(v: string)
      reads this
    {
      exists c | c in w.containers :: v in w.containers[c].volumes
    }

    /** Docker refuses to remove a volume that a container, running or not, still mounts;
        removing an absent one succeeds. */
    method RemoveVolume(v: string) returns (ok: bool)
      requires Valid() && (unclashed ==> Unneeded(w, v))
      modifies `w, `history
      ensures Valid() && old(history) <= history
      ensures w == old(w) || w == old(w).(volumes := old(w).volumes - {v})
      ensures ok ==> v !in w.volumes && !old(InUse(v))
      ensures old(InUse(v)) ==> w == old(w)
      ensures Sure(Elsewhere) && !old(InUse(v)) ==> ok
    {
      hide Safe, Sealed;
      if InUse(v) { return false; }
      VolumeKeeps(w, v, Blank);
      ok := Call(w.(volumes := w.volumes - {v}));
    }

    /** Fails if the name is taken. */
    method CreateContainer(c: string, k: Container) returns (ok: bool)
      requires Valid() && !k.running
      requires c !in w.containers ==> (unclashed ==> Matches(w, c, k)) && (unmixed ==> Wired(w, c, k))
      modifies `w, `history
      ensures Valid() && old(history) <= history
      ensures w == old(w) || (c !in old(w).containers && w == WithContainer(old(w), c, k))
      ensures ok ==> c !in old(w).containers && w == WithContainer(old(w), c, k)
      ensures Sure(Elsewhere) && c !in old(w).containers ==> ok
    {
      hide Safe, Sealed, Matches, Wired;
      if c in w.containers { return false; }
      NewContainerKeeps(w, c, k);
      ok := Call(WithContainer(w, c, k));
    }

    /** Starts a database server with the files mounted now: an empty volume is initialised
        with the image's version; other data is left alone, and the server stays up only on
        its own version. */
    method StartServer(c: string, v: string) returns (ok: bool)
      requires Valid() && c in w.containers && w.containers[c].volumes == {v} && v in w.volumes
      modifies `w, `history
      ensures Valid() && old(history) <= history
      ensures c in w.containers && v in w.volumes
      ensures Starts(old(w), w, c, v)
      ensures old(w).volumes[v].Blank? || w.volumes[v] == old(w).volumes[v]
      ensures Sure(Elsewhere) ==> ok
      ensures Sure(Elsewhere) && CanBoot(old(w), old(w).containers[c]) && BootsOn(old(w).volumes[v], w.containers[c].image) ==>
        w.containers[c].running && RunsOn(w.volumes[v], w.containers[c].image)
    {
      hide Safe, Sealed;
      var k, data := w.containers[c], w.volumes[v];
      var running := CanBoot(w, k);
      if running && !(BootsOn(data, k.image) && Sure(Elsewhere)) { running := *; }
      if data.Blank? && CanBoot(w, k) {
        var content: int := *;
        var initialised, partly: bool := *, *;
        if initialised || Sure(Elsewhere) { data := Cluster(k.image, content); } else if partly { data := Partial; }
        BlankIsUnneeded(w, v);
      }
      VolumeKeeps(w, v, data);
      ghost var filled := w.(volumes := w.volumes[v := data]);
      assert data == w.volumes[v] ==> filled == w;
      RunningKeeps(filled, c);
      assert Booted(filled, k) == Booted(w, k);
      var next := if running then Booted(w, k) else Stopped(k);
      ok := Call(w.(volumes := w.volumes[v := data], containers := w.containers[c := next]));
    }

    /** Waits until the server accepts connections: it then runs on data of its version. */
    method WaitReady(c: string, v: string) returns (ok: bool)
      requires c in w.containers && v in w.volumes
      ensures ok ==> w.containers[c].running && RunsOn(w.volumes[v], w.containers[c].image)
      ensures Sure(Readiness) && w.containers[c].running && RunsOn(w.volumes[v], w.containers[c].image) ==> ok
      ensures faults == Only(Readiness) ==> !ok
    {
      ok := Ask(Readiness);
      ok := ok && w.containers[c].running && RunsOn(w.volumes[v], w.containers[c].image);
    }

    // ---------- Configuration files ----------

    /** One file of a configuration directory. */
    method WriteConf(n: string, conf: Conf, site: Site := Elsewhere) returns (ok: bool)
      requires Valid() && MayWrite(n)
      modifies `w, `history
      ensures Valid() && old(history) <= history
      ensures w == old(w).(confs := old(w).confs[n := conf]) || (w == old(w) && !ok)
      ensures Sure(site) ==> ok
      ensures faults == Only(site) ==> !ok && w == old(w)
    {
      hide Safe, Sealed;
      ConfKeeps(w, n, conf);
      ok := Call(w.(confs := w.confs[n := conf]), site);
    }

    /** Nothing that must hold depends on what is in `n`'s configuration directory now. */
    ghost predicate MayWrite(n: string)
      reads `w, `unclashed, `unmixed
    {
      (unmixed ==> !Mounted(w, n)) && (unclashed && InstanceContainer(n) in w.containers ==> n !in w.states)
    }

    /** Writes postgresql.conf, then pgbackrest.conf when there is a repository to name. */
    method WriteConfigs(n: string, archive: bool, repo: Option<string>) returns (ok: bool)
      requires Valid() && MayWrite(n)
      modifies `w, `history
      ensures Valid() && old(history) <= history
      ensures w == old(w).(confs := w.confs) && w.confs - {n} == old(w).confs - {n}
      ensures ok ==> w.confs == old(w).confs[n := Written(old(w), n, archive, repo)]
      ensures Sure(Elsewhere) && Sure(RepositoryConf) ==> ok
      ensures faults == Only(RepositoryConf) && repo.Some? ==>
        !ok && w.confs == old(w).confs[n := Written(old(w), n, archive, None)]
    {
      hide InstanceContainer, Safe, Sealed;
      ok := WriteServerConf(n, archive);
      if !ok { return; }
      ok := Ask();                                                     // pg_hba.conf
      if !ok { return; }
      if repo.Some? {
        ok := WriteRepository(n, repo);
      }
    }

    method WriteServerConf(n: string, archive: bool) returns (ok: bool)
      requires Valid() && MayWrite(n)
      modifies `w, `history
      ensures Valid() && old(history) <= history
      ensures w == old(w).(confs := w.confs) && w.confs - {n} == old(w).confs - {n}
      ensures ok ==> w.confs == old(w).confs[n := ConfOf(old(w), n).(archive := Some(archive))]
      ensures Sure(Elsewhere) ==> ok
    {
      hide InstanceContainer, Safe, Sealed;
      ok := WriteConf(n, ConfOf(w, n));                                // the directory itself
      if !ok { return; }
      ok := WriteConf(n, ConfOf(w, n).(archive := Some(archive)));     // postgresql.conf
    }

    method WriteRepository(n: string, repo: Option<string>) returns (ok: bool)
      requires Valid() && MayWrite(n)
      modifies `w, `history
      ensures Valid() && old(history) <= history
      ensures w == old(w).(confs := old(w).confs[n := ConfOf(old(w), n).(repo := repo)]) || (w == old(w) && !ok)
      ensures Sure(Elsewhere) && Sure(RepositoryConf) ==> ok
      ensures faults == Only(RepositoryConf) ==> !ok && w == old(w)
    {
      hide InstanceContainer, Safe, Sealed;
      ok := WriteConf(n, ConfOf(w, n).(repo := repo), RepositoryConf);
      if !ok { return; }
      ok := Ask();                                                     // initialisation SQL, entrypoint, password file
    }
  }

  predicate RunsOn(data: Data, image: nat) {
    data.Cluster? && data.version == image
  }

  /** What a server of the version can be started on. */
  predicate BootsOn(data: Data, image: nat) {
    data.Blank? || RunsOn(data, image)
  }

  function ConfOf(w: Host, n: string): Conf {
    if n in w.confs then w.confs[n] else Conf(None, None)
  }

  /** The configuration directory after writing: without a repository to name, the old
      pgbackrest.conf stays. */
  function Written(w: Host, n: string, archive: bool, repo: Option<string>): Conf {
    Conf(Some(archive), if repo.Some? then repo else ConfOf(w, n).repo)
  }

  /** A start changes the container's running state and its volume's data, nothing else. */
  predicate Starts(w: Host, v: Host, c: string, volume: string) {
    && c in w.containers && c in v.containers && volume in v.volumes
    && v == w.(containers := w.containers[c := v.containers[c]], volumes := w.volumes[volume := v.volumes[volume]])
    && (v.containers[c] == w.containers[c] || v.containers[c] == Stopped(w.containers[c])
        || (CanBoot(w, w.containers[c]) && v.containers[c] == Booted(w, w.containers[c])))
  }

  /** Recorded data is never blank, so a blank volume is not needed by a record. */
  lemma BlankIsUnneeded(w: Host, v: string)
    requires v in w.volumes && !w.volumes[v].Cluster?
    ensures Safe(w) ==> Unneeded(w, v)
  {
    if Safe(w) {
      assert forall m | m in w.states && m !in w.halfDestroyed :: HasData(w, m);
    }
  }
}
