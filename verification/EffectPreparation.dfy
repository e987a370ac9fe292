/**
 The single-flight effect preparation of the card builder. Every action is one uninterrupted
 stretch of JavaScript; other actions may come between the stages of a flight.
 */
module EffectPreparation {
  import opened Wrappers

  datatype Scene = Scene(status: string, provider: string, background: bool, mask: bool)

  datatype Photo = Photo(src: string, file: nat)

  datatype Editor = Editor(photo: Photo, effect: string, spatialEnabled: bool, scene: Option<Scene>, analyzed: bool)

  predicate SpatialEffectReady(e: Editor) {
    e.scene.Some? && e.scene.value.status == "completed" && e.scene.value.provider != "local_fallback"
    && e.scene.value.background && e.scene.value.mask
  }

  /** Waiting for the spatial scene or the analysis, settled with `finally` still to run, or over. */
  datatype Phase = AwaitSpatial | AwaitAnalysis | Settled | Over

  datatype Flight = Flight(editor: nat, photo: Photo, phase: Phase)

  /** Flights in the order of their creation, and the one registered for each editor. */
  datatype World = World(editors: seq<Editor>, current: nat, flights: seq<Flight>, registered: map<nat, nat>)

  /** The flight's photo is the current one and effects are on. */
  predicate StillValid(w: World, f: Flight) {
    w.current == f.editor && f.editor < |w.editors| && w.editors[f.editor].photo == f.photo
      && w.editors[f.editor].effect != "none"
  }

  /** What a flight does once the spatial scene is there. */
  function Proceed(w: World, f: Flight): Flight {
    if StillValid(w, f) && !w.editors[f.editor].analyzed then f.(phase := AwaitAnalysis) else f.(phase := Settled)
  }

  /** The registered flight a call of prepare shares, if any. */
  function Shared(w: World): Option<nat> {
    if w.current < |w.editors| && w.current in w.registered && w.registered[w.current] < |w.flights|
       && w.flights[w.registered[w.current]].photo == w.editors[w.current].photo
    then Some(w.registered[w.current]) else None
  }

  predicate Idle(w: World) {
    w.current >= |w.editors| || w.editors[w.current].effect == "none" || w.editors[w.current].photo.src == ""
  }

  datatype Action =
    | Prepare
    | SpatialDone(flight: nat, failed: bool)
    | AnalysisDone(flight: nat)
    | Finally(flight: nat)
    | Switch(editor: nat)
    | SwapPhoto(editor: nat, photo: Photo)
    | SetEffect(editor: nat, effect: string)
    | SetResults(editor: nat, spatialEnabled: bool, scene: Option<Scene>, analyzed: bool)

  /** A new flight runs its first stretch before it is registered. */
  function Launch(w: World): World
    requires !Idle(w)
  {
    var f := Flight(w.current, w.editors[w.current].photo, AwaitSpatial);
    var started := if SpatialEffectReady(w.editors[w.current]) then Proceed(w, f) else f;
    w.(flights := w.flights + [started], registered := w.registered[w.current := |w.flights|])
  }

  function Step(w: World, a: Action): World {
    match a
    case Prepare => if Idle(w) || Shared(w).Some? then w else Launch(w)
    case SpatialDone(i, failed) =>
      if i >= |w.flights| || w.flights[i].phase != AwaitSpatial then w
      else w.(flights := w.flights[i := if failed then w.flights[i].(phase := Settled) else Proceed(w, w.flights[i])])
    case AnalysisDone(i) =>
      if i >= |w.flights| || w.flights[i].phase != AwaitAnalysis then w
      else w.(flights := w.flights[i := w.flights[i].(phase := Settled)])
    case Finally(i) =>
      if i >= |w.flights| || w.flights[i].phase != Settled then w
      else
        var e := w.flights[i].editor;
        w.(flights := w.flights[i := w.flights[i].(phase := Over)],
           registered := if e in w.registered && w.registered[e] == i then w.registered - {e} else w.registered)
    case Switch(e) => w.(current := e)
    case SwapPhoto(e, photo) =>
      if e >= |w.editors| then w else w.(editors := w.editors[e := w.editors[e].(photo := photo)])
    case SetEffect(e, effect) =>
      if e >= |w.editors| then w else w.(editors := w.editors[e := w.editors[e].(effect := effect)])
    case SetResults(e, enabled, scene, analyzed) =>
      if e >= |w.editors| then w
      else w.(editors := w.editors[e := w.editors[e].(spatialEnabled := enabled, scene := scene, analyzed := analyzed)])
  }

  class Preparation {
    var editors: seq<Editor>
    var current: nat
    var flights: seq<Flight>
    var registered: map<nat, nat>

    function Content(): World
      reads this
    {
      World(editors, current, flights, registered)
    }

    constructor (editors: seq<Editor>)
      ensures Content() == World(editors, 0, [], map[])
    {
      this.editors, current, flights, registered := editors, 0, [], map[];
    }

    /** The flight whose promise the caller gets; None for a promise that is resolved already. */
    method PrepareEffects() returns (flight: Option<nat>)
      modifies this`flights, this`registered
      ensures Content() == Step(old(Content()), Prepare)
      ensures flight == if Idle(old(Content())) then None
                        else if Shared(old(Content())).Some? then Shared(old(Content())) else Some(|old(flights)|)
    {
      if current >= |editors| || editors[current].effect == "none" || editors[current].photo.src == "" {
        return None;
      }
      var editor := editors[current];
      if current in registered && registered[current] < |flights|
        && flights[registered[current]].photo == editor.photo {
        return Some(registered[current]);
      }
      var id := |flights|;
      var started := Flight(current, editor.photo, AwaitSpatial);
      if SpatialEffectReady(editor) {
        started := started.(phase := if editor.analyzed then Settled else AwaitAnalysis);
      }
      flights := flights + [started];
      registered := registered[current := id];
      return Some(id);
    }

    /** The stretch after the spatial scene is there, or failed. */
    method AfterSpatial(i: nat, failed: bool)
      requires i < |flights| && flights[i].phase == AwaitSpatial
      modifies this`flights
      ensures Content() == Step(old(Content()), SpatialDone(i, failed))
    {
      var f := flights[i];
      if !failed && current == f.editor && f.editor < |editors| && editors[f.editor].photo == f.photo
         && editors[f.editor].effect != "none" && !editors[f.editor].analyzed {
        flights := flights[i := f.(phase := AwaitAnalysis)];
      } else {
        flights := flights[i := f.(phase := Settled)];
      }
    }

    method RunFinally(i: nat)
      requires i < |flights| && flights[i].phase == Settled
      modifies this`flights, this`registered
      ensures Content() == Step(old(Content()), Finally(i))
    {
      var f := flights[i];
      flights := flights[i := f.(phase := Over)];
      if f.editor in registered && registered[f.editor] == i {
        registered := registered - {f.editor};
      }
    }
  }

  // ---- every interleaving ----

  function Run(w: World, acts: seq<Action>): World {
    if |acts| == 0 then w else Step(Run(w, acts[..|acts| - 1]), acts[|acts| - 1])
  }

  /** A flight starts its analysis only while its own photo is current and effects are on. */
  lemma AnalysisStartsValid(w: World, a: Action, i: nat)
    requires i < |Step(w, a).flights| && Step(w, a).flights[i].phase == AwaitAnalysis
    requires i < |w.flights| ==> w.flights[i].phase != AwaitAnalysis
    ensures var f := Step(w, a).flights[i];
            && StillValid(w, f) && !w.editors[f.editor].analyzed && a != SpatialDone(i, true)
  {
  }

  /**
   When the scene is there, its flight analyses exactly if its photo is still shown with effects on
   and not analysed yet.
   */
  lemma AnalysisStartsIff(w: World, i: nat, failed: bool)
    requires i < |w.flights| && w.flights[i].phase == AwaitSpatial
    ensures var f := w.flights[i];
            var f' := Step(w, SpatialDone(i, failed)).flights[i];
            f' == f.(phase := if !failed && w.current == f.editor && f.editor < |w.editors|
                                 && w.editors[f.editor].photo == f.photo && w.editors[f.editor].effect != "none"
                                 && !w.editors[f.editor].analyzed
                              then AwaitAnalysis else Settled)
  {
  }

  /**
   A call of prepare starts a flight exactly if effects are on, there is a photo, and no flight is
   registered for it. The flight skips the scene if a complete one of its own is there.
   */
  lemma PrepareStartsIff(w: World)
    requires w.current < |w.editors| && RegistryOk(w)
    ensures var e := w.editors[w.current];
            var w' := Step(w, Prepare);
            if e.effect != "none" && e.photo.src != ""
               && (w.current in w.registered ==> w.flights[w.registered[w.current]].photo != e.photo)
            then
              && |w'.flights| == |w.flights| + 1 && w'.registered == w.registered[w.current := |w.flights|]
              && w'.flights[|w.flights|].editor == w.current && w'.flights[|w.flights|].photo == e.photo
              && (w'.flights[|w.flights|].phase != AwaitSpatial <==> e.scene.Some? && Complete(e.scene.value))
            else w' == w
  {
  }

  /** The scene was made by the provider proper, and both of its pictures are there. */
  predicate Complete(scene: Scene) {
    scene.status == "completed" && scene.provider != "local_fallback" && scene.background && scene.mask
  }

  ghost predicate RegistryOk(w: World) {
    forall e :: e in w.registered ==>
      w.registered[e] < |w.flights| && w.flights[w.registered[e]].editor == e
        && w.flights[w.registered[e]].phase != Over
  }

  lemma {:induction false} RunKeepsRegistry(w: World, acts: seq<Action>)
    requires RegistryOk(w)
    ensures RegistryOk(Run(w, acts))
  {
    hide Step, RegistryOk;
    if |acts| > 0 {
      RunKeepsRegistry(w, acts[..|acts| - 1]);
      StepKeepsRegistry(Run(w, acts[..|acts| - 1]), acts[|acts| - 1]);
    }
  }

  lemma StepKeepsRegistry(w: World, a: Action)
    requires RegistryOk(w)
    ensures RegistryOk(Step(w, a))
  {
  }

  /** No leak: when every flight is over, nothing stays registered. */
  lemma NothingLeftBehind(w: World, acts: seq<Action>)
    requires RegistryOk(w) && forall i :: 0 <= i < |Run(w, acts).flights| ==> Run(w, acts).flights[i].phase == Over
    ensures Run(w, acts).registered == map[]
  {
    RunKeepsRegistry(w, acts);
  }

  /** One flight finishing never removes another flight's entry. */
  lemma FinallyRemovesOwnOnly(w: World, i: nat, e: nat)
    requires e in w.registered && w.registered[e] != i
    ensures var w' := Step(w, Finally(i)); e in w'.registered && w'.registered[e] == w.registered[e]
  {
  }

  ghost predicate Registered(w: World, e: nat, i: nat) {
    && e < |w.editors| && i < |w.flights| && e in w.registered && w.registered[e] == i
    && w.flights[i].editor == e && w.flights[i].photo == w.editors[e].photo
  }

  lemma StepKeepsRegistered(w: World, a: Action, e: nat, i: nat)
    requires Registered(w, e, i) && a != Finally(i) && !(a.SwapPhoto? && a.editor == e)
    ensures Registered(Step(w, a), e, i)
  {
  }

  /**
   Sharing: while a flight is registered for an editor and the editor keeps its photo, whatever else
   happens, every call of prepare on it returns that flight and starts no other.
   */
  lemma {:induction false} PrepareShares(w: World, acts: seq<Action>, e: nat, i: nat)
    requires Registered(w, e, i)
    requires forall k :: 0 <= k < |acts| ==> acts[k] != Finally(i) && !(acts[k].SwapPhoto? && acts[k].editor == e)
    ensures var w' := Run(w, acts);
            Registered(w', e, i) && (w'.current == e ==> Shared(w') == Some(i) && Step(w', Prepare) == w')
  {
    hide Step;
    if |acts| > 0 {
      PrepareShares(w, acts[..|acts| - 1], e, i);
      StepKeepsRegistered(Run(w, acts[..|acts| - 1]), acts[|acts| - 1], e, i);
    }
    RegisteredIsShared(Run(w, acts), e, i);
  }

  lemma RegisteredIsShared(w: World, e: nat, i: nat)
    requires Registered(w, e, i)
    ensures w.current == e ==> Shared(w) == Some(i) && Step(w, Prepare) == w
  {
  }

  /** Flight i is under way for this photo of editor e. */
  predicate UnderWay(w: World, i: nat, e: nat, photo: Photo) {
    i < |w.flights| && w.flights[i].phase != Over && w.flights[i].editor == e && w.flights[i].photo == photo
  }

  /** Single flight: no two flights are under way for one photo of an editor. */
  ghost predicate NoTwins(w: World) {
    forall i, j :: 0 <= i < j < |w.flights| && w.flights[i].phase != Over ==>
      !UnderWay(w, j, w.flights[i].editor, w.flights[i].photo)
  }

  /** A call of prepare that finds the current photo under way, but not in a registered flight. */
  ghost predicate MissesFlight(w: World, a: Action) {
    a.Prepare? && !Idle(w) && Shared(w).None? && exists i: nat :: UnderWay(w, i, w.current, w.editors[w.current].photo)
  }

  /** Exactly the calls that miss a flight under way end the single flight. */
  lemma SingleFlightIff(w: World, a: Action)
    requires NoTwins(w)
    ensures NoTwins(Step(w, a)) <==> !MissesFlight(w, a)
  {
    if MissesFlight(w, a) {
      var i: nat :| UnderWay(w, i, w.current, w.editors[w.current].photo);
      var w' := Step(w, a);
      assert w'.flights[i] == w.flights[i];
      assert UnderWay(w', |w.flights|, w.flights[i].editor, w.flights[i].photo);
    } else if a.Prepare? && !Idle(w) && Shared(w).None? {
      LaunchKeepsNoTwins(w);
    } else {
      OthersKeepNoTwins(w, a);
    }
  }

  lemma LaunchKeepsNoTwins(w: World)
    requires NoTwins(w) && !Idle(w) && !exists i: nat :: UnderWay(w, i, w.current, w.editors[w.current].photo)
    ensures NoTwins(Launch(w))
  {
    var w' := Launch(w);
    forall i, j | 0 <= i < j < |w'.flights| && w'.flights[i].phase != Over
      ensures !UnderWay(w', j, w'.flights[i].editor, w'.flights[i].photo)
    {
      assert w'.flights[i] == w.flights[i];
      if j < |w.flights| {
        assert w'.flights[j] == w.flights[j];
        assert !UnderWay(w, j, w.flights[i].editor, w.flights[i].photo);
      } else {
        assert !UnderWay(w, i, w.current, w.editors[w.current].photo);
      }
    }
  }

  /** Flights never change their photo, and once over stay over; only a call of prepare adds one. */
  lemma StepKeepsFlights(w: World, a: Action)
    ensures var w' := Step(w, a);
            |w.flights| <= |w'.flights| && (!a.Prepare? || Idle(w) || Shared(w).Some? ==> |w'.flights| == |w.flights|)
            && forall i :: 0 <= i < |w.flights| ==>
                 w'.flights[i].editor == w.flights[i].editor && w'.flights[i].photo == w.flights[i].photo
                 && (w.flights[i].phase == Over ==> w'.flights[i].phase == Over)
                 && (w.flights[i].phase != Over && a != Finally(i) ==> w'.flights[i].phase != Over)
  {
  }

  lemma OthersKeepNoTwins(w: World, a: Action)
    requires NoTwins(w) && (!a.Prepare? || Idle(w) || Shared(w).Some?)
    ensures NoTwins(Step(w, a))
  {
    StepKeepsFlights(w, a);
    hide Step, Shared, Idle;
    var w' := Step(w, a);
    forall i, j | 0 <= i < j < |w'.flights| && w'.flights[i].phase != Over
      ensures !UnderWay(w', j, w'.flights[i].editor, w'.flights[i].photo)
    {
      assert !UnderWay(w, j, w.flights[i].editor, w.flights[i].photo);
    }
  }

  lemma RunOneMore(w: World, acts: seq<Action>)
    ensures Run(w, acts[..|acts|]) == if acts == [] then w else Step(Run(w, acts[..|acts| - 1]), acts[|acts| - 1])
  {
    assert acts[..|acts|] == acts;
  }

  /** Over whole runs: one flight per photo all along, exactly when no call of prepare misses one. */
  lemma {:induction false} RunSingleFlightIff(w: World, acts: seq<Action>)
    requires NoTwins(w)
    ensures (forall k :: 0 <= k <= |acts| ==> NoTwins(Run(w, acts[..k])))
       <==> (forall k :: 0 <= k < |acts| ==> !MissesFlight(Run(w, acts[..k]), acts[k]))
  {
    hide NoTwins, MissesFlight, Step, Run;
    if |acts| > 0 {
      var init, last := acts[..|acts| - 1], |acts| - 1;
      RunSingleFlightIff(w, init);
      assert forall k :: 0 <= k <= last ==> init[..k] == acts[..k];
      assert Run(w, acts[..last + 1]) == Step(Run(w, init), acts[last]) by { RunOneMore(w, acts); }
      if NoTwins(Run(w, init)) {
        SingleFlightIff(Run(w, init), acts[last]);
      }
      assert init[..last] == init;
    } else {
      assert Run(w, acts[..0]) == w by { RunOneMore(w, acts); }
    }
  }

  /** Flight i is under way for the photo on screen of editor e, but not registered. */
  ghost predicate Stray(w: World, e: nat, i: nat) {
    && e < |w.editors| && UnderWay(w, i, e, w.editors[e].photo) && (e in w.registered ==> w.registered[e] != i)
  }

  /** A stray flight stays one until it ends or its photo is swapped away. */
  lemma {:induction false} StrayStays(w: World, acts: seq<Action>, e: nat, i: nat)
    requires Stray(w, e, i)
    requires forall k :: 0 <= k < |acts| ==> acts[k] != Finally(i) && !(acts[k].SwapPhoto? && acts[k].editor == e)
    ensures Stray(Run(w, acts), e, i)
  {
    if |acts| > 0 {
      StrayStays(w, acts[..|acts| - 1], e, i);
      StepKeepsFlights(Run(w, acts[..|acts| - 1]), acts[|acts| - 1]);
    }
  }

  /**
   Swapping back: a swap to a photo whose flight still runs but is no longer registered leads to
   twins at the next call of prepare, whatever comes in between, unless that flight has ended by
   then or the photo was swapped again.
   */
  lemma {:induction false} SwapBackMakesTwins(w: World, e: nat, photo: Photo, i: nat, acts: seq<Action>)
    requires RegistryOk(w) && e < |w.editors| && UnderWay(w, i, e, photo)
      && (e in w.registered ==> w.registered[e] != i)
    requires forall k :: 0 <= k < |acts| ==> acts[k] != Finally(i) && !(acts[k].SwapPhoto? && acts[k].editor == e)
    ensures var w' := Run(Step(w, SwapPhoto(e, photo)), acts);
            w'.current == e && !Idle(w') ==> !NoTwins(Step(w', Prepare))
  {
    var w1 := Step(w, SwapPhoto(e, photo));
    StrayStays(w1, acts, e, i);
    StepKeepsRegistry(w, SwapPhoto(e, photo));
    RunKeepsRegistry(w1, acts);
    StrayMakesTwins(Run(w1, acts), e, i);
  }

  lemma StrayMakesTwins(w: World, e: nat, i: nat)
    requires RegistryOk(w) && Stray(w, e, i)
    ensures w.current == e && !Idle(w) ==> !NoTwins(Step(w, Prepare))
  {
    if w.current == e && !Idle(w) {
      var w' := Step(w, Prepare);
      var j := if Shared(w).Some? then Shared(w).value else |w.flights|;
      assert w'.flights[i] == w.flights[i];
      var a, b := if i < j then i else j, if i < j then j else i;
      assert UnderWay(w', b, w'.flights[a].editor, w'.flights[a].photo);
    }
  }

  /**
   The swaps to avoid: if none brings back a photo whose flight is under way but no longer
   registered, no call of prepare ever misses a flight.
   */
  ghost predicate Fresh(w: World, a: Action) {
    a.SwapPhoto? ==> forall i: nat :: UnderWay(w, i, a.editor, a.photo) ==>
      a.editor in w.registered && w.registered[a.editor] == i
  }

  ghost predicate NoStrays(w: World) {
    RegistryOk(w) && forall e, i: nat :: !Stray(w, e, i)
  }

  lemma NoStrayNoMiss(w: World, a: Action)
    requires NoStrays(w)
    ensures !MissesFlight(w, a)
  {
    forall i: nat | !Idle(w) && UnderWay(w, i, w.current, w.editors[w.current].photo)
      ensures Shared(w).Some?
    {
      assert !Stray(w, w.current, i);
    }
  }

  lemma StepKeepsNoStrays(w: World, a: Action)
    requires NoStrays(w) && Fresh(w, a)
    ensures NoStrays(Step(w, a))
  {
    StepKeepsRegistry(w, a);
    NoStrayNoMiss(w, a);
    var w' := Step(w, a);
    forall e: nat, i: nat
      ensures !Stray(w', e, i)
    {
      assert !Stray(w, e, i);
      hide RegistryOk;
      if a.SwapPhoto? && e == a.editor {
        assert UnderWay(w', i, e, a.photo) ==> UnderWay(w, i, e, a.photo);
      } else if a.Prepare? && !Idle(w) && Shared(w).None? && e == w.current {
        assert !UnderWay(w, i, e, w.editors[e].photo);
      }
    }
  }

  lemma {:induction false} RunKeepsSingleFlight(w: World, acts: seq<Action>)
    requires NoTwins(w) && NoStrays(w) && forall k :: 0 <= k < |acts| ==> Fresh(Run(w, acts[..k]), acts[k])
    ensures NoTwins(Run(w, acts)) && NoStrays(Run(w, acts))
  {
    hide NoTwins, NoStrays, Fresh, MissesFlight, Step;
    if |acts| > 0 {
      var init, last := acts[..|acts| - 1], |acts| - 1;
      assert forall k :: 0 <= k < last ==> init[..k] == acts[..k];
      RunKeepsSingleFlight(w, init);
      NoStrayNoMiss(Run(w, init), acts[last]);
      SingleFlightIff(Run(w, init), acts[last]);
      StepKeepsNoStrays(Run(w, init), acts[last]);
    }
  }

  /** Swapping a photo away and back while its scene is made analyses the same photo twice at once. */
  lemma SwapBackAnalysesTwice(w: World, a: Photo, b: Photo)
    requires w == World([Editor(a, "holographic", false, None, false)], 0, [], map[])
    requires a != b && a.src != "" && b.src != ""
    ensures var swapped := Step(Step(Step(w, Prepare), SwapPhoto(0, b)), Prepare);
            var back := Step(Step(swapped, SwapPhoto(0, a)), Prepare);
            var flights := Step(Step(back, SpatialDone(0, false)), SpatialDone(2, false)).flights;
            |flights| == 3 && flights[0] == flights[2] == Flight(0, a, AwaitAnalysis)
  {
  }
}
