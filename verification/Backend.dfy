/** The in-memory backend (internal/ovpnbackend/mock.go): one process per instance, restarted when
    its conf or binary changes. */
module Backend {
  import opened Wrappers

  /** A rendered conf: the text of the instance and the shaper line, if any. Its hash is taken to
      be injective, so confs stand for hashes. */
  datatype Conf = Conf(text: string, shaper: Option<int>)

  datatype LiveClient = LiveClient(cn: string, addr: string, rx: nat, tx: nat)

  /** What the backend holds for an instance: the conf and binary last asked for, and the process. */
  datatype Process = Process(conf: Conf, binary: string, up: bool, pid: nat, clients: seq<LiveClient>)

  /** `starts` lists the process starts; it only records the run. */
  datatype Fleet = Fleet(procs: map<string, Process>, kills: seq<(string, string)>, starts: seq<string>)

  function Stopped(p: Process): Process { p.(up := false, pid := 0) }

  predicate NeedsStart(f: Fleet, name: string, conf: Conf, binary: string) {
    name !in f.procs || !f.procs[name].up || f.procs[name].conf != conf || f.procs[name].binary != binary
  }

  /** EnsureInstance. */
  function Ensured(f: Fleet, name: string, enabled: bool, conf: Conf, binary: string): Fleet {
    if !enabled then
      if name in f.procs then f.(procs := f.procs[name := Stopped(f.procs[name])]) else f
    else if NeedsStart(f, name, conf, binary) then
      var count := if name in f.procs then |f.procs| else |f.procs| + 1;
      Fleet(f.procs[name := Process(conf, binary, true, 1000 + count, [])], f.kills, f.starts + [name])
    else f
  }

  function Without(clients: seq<LiveClient>, cn: string): seq<LiveClient> {
    if clients == [] then []
    else
      var c := clients[|clients| - 1];
      Without(clients[..|clients| - 1], cn) + if c.cn != cn && c.addr != cn then [c] else []
  }

  /** KillClient on a running instance. */
  function Killed(f: Fleet, name: string, cn: string): Fleet {
    if name in f.procs then
      f.(procs := f.procs[name := f.procs[name].(clients := Without(f.procs[name].clients, cn))],
         kills := f.kills + [(name, cn)])
    else f.(kills := f.kills + [(name, cn)])
  }

  predicate Up(f: Fleet, name: string) { name in f.procs && f.procs[name].up }

  /** The names ListLive reports that are not wanted. */
  function Orphans(f: Fleet, wanted: set<string>): set<string> {
    set name | name in f.procs && f.procs[name].up && name !in wanted
  }

  /** The live clients by common name; a later entry replaces an earlier one. */
  function ByCN(clients: seq<LiveClient>): map<string, LiveClient> {
    if clients == [] then map[]
    else ByCN(clients[..|clients| - 1])[clients[|clients| - 1].cn := clients[|clients| - 1]]
  }

  class Mock {
    var procs: map<string, Process>
    var kills: seq<(string, string)>
    ghost var starts: seq<string>

    ghost function Now(): Fleet
      reads this
    {
      Fleet(procs, kills, starts)
    }

    constructor ()
      ensures Now() == Fleet(map[], [], [])
    {
      procs, kills, starts := map[], [], [];
    }

    method EnsureInstance(name: string, enabled: bool, conf: Conf, binary: string)
      modifies this
      ensures Now() == Ensured(old(Now()), name, enabled, conf, binary)
    {
      if !enabled {
        if name in procs { procs := procs[name := procs[name].(up := false, pid := 0)]; }
        return;
      }
      var known := name in procs;
      var needRestart := !known || !procs[name].up || procs[name].conf != conf || procs[name].binary != binary;
      if !known { procs := procs[name := Process(conf, binary, false, 0, [])]; }
      procs := procs[name := procs[name].(conf := conf, binary := binary)];
      if needRestart {
        procs := procs[name := procs[name].(up := true, pid := 1000 + |procs|, clients := [])];
        starts := starts + [name];
      }
    }

    method RemoveInstance(name: string)
      modifies this
      ensures Now() == old(Now()).(procs := old(procs) - {name})
    {
      procs := procs - {name};
    }

    method KillClient(name: string, cn: string)
      modifies this
      ensures Now() == Killed(old(Now()), name, cn)
    {
      kills := kills + [(name, cn)];
      if name in procs {
        var clients, kept := procs[name].clients, [];
        for i := 0 to |clients|
          invariant kept == Without(clients[..i], cn)
        {
          assert clients[..i + 1][..i] == clients[..i];
          if clients[i].cn != cn && clients[i].addr != cn { kept := kept + [clients[i]]; }
        }
        assert clients[..|clients|] == clients;
        procs := procs[name := procs[name].(clients := kept)];
      }
    }
  }
}
