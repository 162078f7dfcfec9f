/** Two runs over a restart of the daemon in which an event is repeated. */
module RestartExamples {
  import opened Wrappers
  import opened Backend
  import opened Passes
  import opened ClientRuns
  import opened EdgeEvents

  const ON := Instance("a", false, true, Some("b"), Some("c"), 0, 0)
  const OFF := Instance("a", false, false, Some("b"), Some("c"), 0, 0)
  const PEER := LiveClient("x", "", 0, 0)

  function PassOver(inst: Instance): Deed { Pass([Turn(inst, Clock(0, 0))]) }

  function ActOver(inst: Instance, came: seq<string>): Act { Act(PassOver(inst), [Order(came, [])]) }

  /** The process of the instance, when it runs with its current conf. */
  predicate Runs(w: World, clients: seq<LiveClient>) {
    w.fleet.procs.Keys == {"a"} && var p := w.fleet.procs["a"];
    p.conf == Conf("c", None) && p.binary == "b" && p.up && p.clients == clients
  }

  /** The fleet after a pass over the instance. */
  function FleetAfter(w: World, inst: Instance): Fleet { Ensured(w.fleet, "a", inst.enabled, Conf("c", None), "b") }

  lemma EnsuredIs(w: World, inst: Instance)
    requires inst == ON || inst == OFF
    ensures Considered(w, inst, 0) == [] && EnsuredFleet(w, false, inst, 0) == FleetAfter(w, inst)
  {
  }

  /** A turn of the instance: it has no clients of its own to sample. */
  lemma OneTurn(w: World, inst: Instance)
    requires inst == ON || inst == OFF
    ensures var w', f := Applied(w, false, inst, Clock(0, 0)), FleetAfter(w, inst);
      && w'.fleet == f && w'.wasUp == w.wasUp["a" := inst.enabled]
      && w'.peers == if inst.enabled then w.peers["a" := LiveClients(f, "a").Keys - {""}] else w.peers
  {
    EnsuredIs(w, inst);
  }

  lemma NoOrphans(f: Fleet)
    requires f.procs.Keys <= {"a"}
    ensures Orphans(f, {"a"}) == {} && f.(procs := f.procs - Orphans(f, {"a"})) == f
  {
    forall name | name in f.procs ensures name == "a" { assert name in f.procs.Keys; }
    assert f.procs - {} == f.procs;
  }

  lemma KeysAfter(w: World, inst: Instance)
    requires w.fleet.procs.Keys <= {"a"}
    ensures FleetAfter(w, inst).procs.Keys <= {"a"}
  {
  }

  lemma OnePass(w: World, inst: Instance)
    requires (inst == ON || inst == OFF) && w.fleet.procs.Keys <= {"a"}
    ensures Do(w, false, PassOver(inst)) == Applied(w, false, inst, Clock(0, 0))
  {
    var turns := [Turn(inst, Clock(0, 0))];
    assert turns[..0] == [] && AppliedAll(w, false, turns[..0]) == w && NamesOf(turns[..0]) == {};
    OneTurn(w, inst);
    KeysAfter(w, inst);
    NoOrphans(FleetAfter(w, inst));
  }

  lemma OneOrder(w: World, inst: Instance, came: seq<string>)
    requires OrderOk(w, false, inst, Clock(0, 0), Order(came, []))
    ensures Legal(w, false, ActOver(inst, came))
  {
    var turns := [Turn(inst, Clock(0, 0))];
    assert turns[..0] == [] && [Order(came, [])][..0] == [];
    assert AppliedAll(w, false, turns[..0]) == w;
  }

  /** A pass over the disabled instance. */
  lemma OffPass(w: World)
    requires w.fleet.procs.Keys <= {"a"}
    ensures Legal(w, false, ActOver(OFF, []))
    ensures var w' := Do(w, false, PassOver(OFF));
      w'.peers == w.peers && w'.wasUp == w.wasUp["a" := false] && w'.fleet.procs.Keys <= {"a"} && !Up(w'.fleet, "a")
  {
    OnePass(w, OFF);
    OneTurn(w, OFF);
    KeysAfter(w, OFF);
    OneOrder(w, OFF, []);
  }

  lemma OrderListed(came: seq<string>, w: World)
    requires |came| <= 1 && PeersOf(w, "a") == {} && LiveClients(FleetAfter(w, ON), "a").Keys - {""} == (set cn | cn in came)
    ensures OrderOk(w, false, ON, Clock(0, 0), Order(came, []))
  {
    EnsuredIs(w, ON);
  }

  /** A pass over the enabled instance starts its process. */
  lemma StartPass(w: World)
    requires w.fleet.procs.Keys <= {"a"} && !Up(w.fleet, "a") && PeersOf(w, "a") == {}
    ensures Legal(w, false, ActOver(ON, []))
    ensures var w' := Do(w, false, PassOver(ON)); w'.wasUp == w.wasUp["a" := true] && PeersOf(w', "a") == {} && Runs(w', [])
  {
    OnePass(w, ON);
    OneTurn(w, ON);
    assert FleetAfter(w, ON).procs["a"].clients == [];
    assert LiveClients(FleetAfter(w, ON), "a").Keys - {""} == {};
    OrderListed([], w);
    OneOrder(w, ON, []);
  }

  lemma PeerIsLive(f: Fleet)
    requires "a" in f.procs && f.procs["a"].clients == [PEER]
    ensures LiveClients(f, "a").Keys - {""} == {"x"}
  {
    assert [PEER][..0] == [] && ByCN([]) == map[];
    assert ByCN([PEER]) == map["x" := PEER];
  }

  /** A pass over the running instance records its peer. */
  lemma PeerPass(w: World)
    requires Runs(w, [PEER]) && PeersOf(w, "a") == {}
    ensures Legal(w, false, ActOver(ON, ["x"]))
    ensures var w' := Do(w, false, PassOver(ON)); PeersOf(w', "a") == {"x"} && Runs(w', [PEER])
  {
    OnePass(w, ON);
    OneTurn(w, ON);
    assert FleetAfter(w, ON) == w.fleet;
    PeerIsLive(w.fleet);
    OrderListed(["x"], w);
    OneOrder(w, ON, ["x"]);
  }

  lemma PeerJoins(w: World, w': World)
    requires Runs(w, []) && w' == Do(w, false, Sessions("a", [PEER]))
    ensures Runs(w', [PEER]) && w'.peers == w.peers
  {
  }

  lemma PeerLife(w: World, acts: seq<Act>)
    requires acts == [ActOver(ON, []), Act(Sessions("a", [PEER]), []), ActOver(ON, ["x"])]
    requires w.fleet.procs == map[] && w.peers == map[]
    ensures LegalFrom(w, false, acts)
    ensures var w' := WorldFrom(w, false, acts); PeersOf(w', "a") == {"x"} && Runs(w', [PEER])
  {
    StartPass(w);
    var w1 := Do(w, false, PassOver(ON));
    var w2 := Do(w1, false, Sessions("a", [PEER]));
    PeerJoins(w1, w2);
    PeerPass(w2);
    ThreeActs(w, acts, w1, w2);
  }

  lemma AgainLife(w: World, acts: seq<Act>)
    requires acts == [ActOver(ON, ["x"])] && Runs(w, [PEER]) && w.peers == map[]
    ensures LegalFrom(w, false, acts) && PeersOf(WorldFrom(w, false, acts), "a") == {"x"}
  {
    PeerPass(w);
    OneAct(w, acts);
  }

  /** A process that stops with the peer on record has found it connected. */
  lemma PeerMet(lives: seq<seq<Act>>, j: nat)
    requires LegalLives(false, lives) && j < |lives| && LeftConnected(false, lives, j, "a", "x")
    ensures MeetsPeer(false, lives, j, "a", "x")
  {
    LifeAlternates(false, lives, j, "a", "x");
    ConnectedIsMarked(PeerMarks(LifeLog(false, lives, j), "a", "x"));
  }

  lemma ConnectedIsMarked(marks: seq<bool>)
    requires PeerOk(marks, true)
    ensures marks != []
  {
  }

  lemma TwoLegal(lives: seq<seq<Act>>)
    requires |lives| == 2 && LegalFrom(StartOf(false, lives, 0), false, lives[0]) && LegalFrom(StartOf(false, lives, 1), false, lives[1])
    ensures LegalLives(false, lives)
  {
  }

  /** A peer that stays connected while the daemon restarts is announced twice. */
  lemma AnnouncedTwice(lives: seq<seq<Act>>)
    requires lives == [[ActOver(ON, []), Act(Sessions("a", [PEER]), []), ActOver(ON, ["x"])], [ActOver(ON, ["x"])]]
    ensures LegalLives(false, lives) && !AlternatesFrom(true, PeerMarks(LogAt(false, lives, 2), "a", "x"))
  {
    PeerLife(StartOf(false, lives, 0), lives[0]);
    WorldNext(lives, 0);
    AgainLife(StartOf(false, lives, 1), lives[1]);
    WorldNext(lives, 1);
    TwoLegal(lives);
    assert LeftConnected(false, lives, 0, "a", "x") && LeftConnected(false, lives, 1, "a", "x");
    PeerMet(lives, 1);
    RestartsAlternateExactly(false, lives, "a", "x");
  }

  lemma WorldNext(lives: seq<seq<Act>>, j: nat)
    requires j < |lives|
    ensures WorldAt(false, lives, j + 1) == WorldFrom(StartOf(false, lives, j), false, lives[j])
  {
  }

  lemma OneAct(w: World, acts: seq<Act>)
    requires |acts| == 1 && Legal(w, false, acts[0])
    ensures LegalFrom(w, false, acts) && WorldFrom(w, false, acts) == Do(w, false, acts[0].deed)
  {
    assert acts[..0] == [] && WorldFrom(w, false, acts[..0]) == w;
  }

  lemma TwoActs(w: World, acts: seq<Act>)
    requires |acts| == 2 && Legal(w, false, acts[0]) && Legal(Do(w, false, acts[0].deed), false, acts[1])
    ensures LegalFrom(w, false, acts) && WorldFrom(w, false, acts) == Do(Do(w, false, acts[0].deed), false, acts[1].deed)
  {
    OneAct(w, acts[..1]);
  }

  lemma ThreeActs(w: World, acts: seq<Act>, w1: World, w2: World)
    requires |acts| == 3 && Legal(w, false, acts[0]) && w1 == Do(w, false, acts[0].deed)
    requires Legal(w1, false, acts[1]) && w2 == Do(w1, false, acts[1].deed) && Legal(w2, false, acts[2])
    ensures LegalFrom(w, false, acts) && WorldFrom(w, false, acts) == Do(w2, false, acts[2].deed)
  {
    TwoActs(w, acts[..2]);
    assert acts[..2][0] == acts[0] && acts[..2][1] == acts[1];
  }

  /** Two processes, each with a pass over the disabled instance and one over the enabled one. */
  predicate OffThenOnTwice(lives: seq<seq<Act>>) {
    lives == [[ActOver(OFF, []), ActOver(ON, [])], [ActOver(OFF, []), ActOver(ON, [])]]
  }

  lemma OffThenOnLegal(lives: seq<seq<Act>>)
    requires OffThenOnTwice(lives)
    ensures LegalLives(false, lives)
  {
    OffThenOn(StartOf(false, lives, 0), lives[0]);
    WorldNext(lives, 0);
    OffThenOn(StartOf(false, lives, 1), lives[1]);
    TwoLegal(lives);
  }

  lemma OffThenOnSeen(lives: seq<seq<Act>>)
    requires OffThenOnTwice(lives)
    ensures Looks(lives, "a") == [[false, true], [false, true]]
  {
    OffThenOnLooks(lives[0]);
  }

  lemma Repeats(lives: seq<seq<Act>>)
    requires LegalLives(false, lives) && Looks(lives, "a") == [[false, true], [false, true]]
    ensures !NoRepeats(InstanceMarks(LogAt(false, lives, |lives|), "a"))
  {
    TwoLooks(Looks(lives, "a"));
    RestartsRepeatExactly(false, lives, "a");
  }

  /** An instance that was seen up, and is seen down first after the daemon restarts, is reported up
      twice in a row when it comes up again. */
  lemma UpTwice(lives: seq<seq<Act>>)
    requires OffThenOnTwice(lives)
    ensures LegalLives(false, lives) && !NoRepeats(InstanceMarks(LogAt(false, lives, 2), "a"))
  {
    OffThenOnLegal(lives);
    OffThenOnSeen(lives);
    Repeats(lives);
  }

  lemma TwoLooks(looks: seq<seq<bool>>)
    requires looks == [[false, true], [false, true]]
    ensures Adjacent(looks, 0, 1) && looks[0][|looks[0]| - 1] != looks[1][0]
  {
    assert looks[0][1] != looks[0][0] && looks[1][1] != looks[1][0];
  }

  lemma OffThenOnLooks(acts: seq<Act>)
    requires acts == [ActOver(OFF, []), ActOver(ON, [])]
    ensures LooksOf(acts, "a") == [false, true]
  {
    OneLook(OFF);
    OneLook(ON);
    assert acts[..1] == [ActOver(OFF, [])] && acts[..1][..0] == [];
    assert LooksOf(acts[..1], "a") == [] + [false];
  }

  lemma OneLook(inst: Instance)
    requires inst == ON || inst == OFF
    ensures LooksInPass([Turn(inst, Clock(0, 0))], "a") == [inst.enabled]
  {
    assert [Turn(inst, Clock(0, 0))][..0] == [];
  }

  lemma OffThenOn(w: World, acts: seq<Act>)
    requires acts == [ActOver(OFF, []), ActOver(ON, [])] && w.fleet.procs.Keys <= {"a"} && w.peers == map[] && w.wasUp == map[]
    ensures LegalFrom(w, false, acts) && WorldFrom(w, false, acts).fleet.procs.Keys <= {"a"}
  {
    OffPass(w);
    StartPass(Do(w, false, PassOver(OFF)));
    TwoActs(w, acts);
  }
}
