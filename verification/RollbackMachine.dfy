/** The machine a rollback runs on: it carries out effects, refuses them or dies, and decides how OpenTofu ends. */
module RollbackMachine {
  import opened Wrappers
  import opened RollbackModel
  import opened RollbackProtocol

  /** An effect is done, refused without effect, or the process dies before or after it. */
  datatype Out = Fine | Error | Crash

  /** Whatever the outside answers that keeps a rollback from converging. */
  datatype Upset =
    | Refused(e: Event)
    | Died
    | Unsuccessful(e: Event)
    | Unresolved(s: Step)
    | Unmarked(r: Root)
    | NotRecreated(roots: set<Root>)

  /** The effect happened, and reports success. */
  predicate Succeeds(e: Event) {
    match e
    case TofuDestroy(_, _, ok) => ok
    case TofuApply(_, _, ok) => ok
    case TofuPlan(_, _, exit) => exit == 0
    case Remove(_, left) => left == None
    case HostRestore(_, ok) => ok
    case _ => true
  }

  /** Disk and persisted journal survive a crash; the ghost log records every effect since the plan was persisted,
      and `upsets` every refusal and failure there ever was. */
  class Machine {
    const captured: map<Root, RootFiles>
    var disk: Disk
    var stored: Option<Journal>
    ghost var phase: map<Root, Phase>
    ghost var written: map<Root, set<FileKind>>
    ghost var start: World
    ghost var log: seq<Event>
    ghost var upsets: seq<Upset>

    constructor (disk: Disk, captured: map<Root, RootFiles>)
      ensures this.disk == disk && this.captured == captured && stored == None && Valid()
    {
      this.disk, this.captured, stored, upsets := disk, captured, None, [];
    }

    ghost function Present(): World
      reads this
      requires stored.Some?
    {
      World(disk, stored.value, phase, written, captured)
    }

    /** The log is a permitted run from the planned state to the present one. */
    ghost predicate Valid()
      reads this
    {
      stored.Some? ==> Starts(start) && start.captured == captured && Run(start, log) && Now(start, log) == Present()
    }

    /** At most the effect `e` happened since the state had the given log. */
    ghost predicate AtMost(before: seq<Event>, was: World, origin: World, e: Event, out: Out)
      reads this
    {
      && stored.Some? && start == origin
      && (out == Fine ==> log == before + [e] && Present() == After(was, e))
      && (out == Error ==> log == before && Present() == was)
      && (out == Crash ==> (log == before && Present() == was) || (log == before + [e] && Present() == After(was, e)))
    }

    static function Upsets(e: Event, out: Out): seq<Upset> {
      match out
      case Fine => if Succeeds(e) then [] else [Unsuccessful(e)]
      case Error => [Refused(e)]
      case Crash => [Died]
    }

    /** Performs the effect `e`, or fails, or dies around it. */
    method Perform(e: Event) returns (out: Out)
      requires Valid() && stored.Some? && Permits(Present(), e)
      modifies this
      ensures Valid() && AtMost(old(log), old(Present()), old(start), e, out)
      ensures upsets == old(upsets) + Upsets(e, out)
    {
      out := *;
      upsets := upsets + Upsets(e, out);
      var died: bool := *;
      if out == Error || (out == Crash && died) { return; }
      RunExtends(start, log, e);
      ghost var after := After(Present(), e);
      log := log + [e];
      disk := DiskAfter(disk, captured, e);
      if e.Save? { stored := Some(e.journal); }
      phase, written := after.phase, after.written;
    }

    /** Persists a new plan; from here on the log describes its rollback. */
    method Begin(j: Journal) returns (out: Out)
      requires Valid() && (stored.Some? ==> stored.value.done)
      requires Starts(World(disk, j, map[], map[], captured))
      modifies this
      ensures Valid() && disk == old(disk)
      ensures out == Fine ==> stored == Some(j) && log == [] && start == Present()
      ensures upsets == old(upsets) + Upsets(Save(j), out)
    {
      out := *;
      upsets := upsets + Upsets(Save(j), out);
      var died: bool := *;
      if out == Error || (out == Crash && died) { return; }
      stored, phase, written, log := Some(j), map[], map[], [];
      start := Present();
    }

    // ---- How the outside decides ----

    method DestroyEnds(r: Root) returns (e: Event)
      ensures e.TofuDestroy? && e.root == r
    {
      var left: Option<RootState>, ok: bool := *, *;
      return TofuDestroy(r, left, ok);
    }

    method ApplyEnds(r: Root) returns (e: Event)
      ensures e.TofuApply? && e.root == r
    {
      var left: Option<RootState>, ok: bool := *, *;
      return TofuApply(r, left, ok);
    }

    method PlanEnds(r: Root) returns (e: Event)
      ensures e.TofuPlan? && e.root == r
    {
      var left: Option<RootState>, exit: int := *, *;
      return TofuPlan(r, left, exit);
    }

    method RemovalEnds(r: Root) returns (e: Event)
      ensures e.Remove? && e.root == r
    {
      var left: Option<RootState> := *;
      return Remove(r, left);
    }

    method HostRepairEnds(r: Root) returns (e: Event)
      ensures e.HostRestore? && e.root == r
    {
      var ok: bool := *;
      return HostRestore(r, ok);
    }

    /** Resolves the environment of a stack. */
    method Resolve(s: Step) returns (ok: bool)
      modifies this`upsets
      ensures upsets == old(upsets) + if ok then [] else [Unresolved(s)]
    {
      ok := *;
      upsets := upsets + if ok then [] else [Unresolved(s)];
    }

    /** Looks for the marker of the executor. */
    method HasMarker(r: Root) returns (found: bool)
      modifies this`upsets
      ensures found <==> r in disk && disk[r].marker
      ensures upsets == old(upsets) + if found then [] else [Unmarked(r)]
    {
      found := r in disk && disk[r].marker;
      upsets := upsets + if found then [] else [Unmarked(r)];
    }

    /** Whether there is a recreation callback that takes these roots; it takes only captured ones. */
    method TakesRecreation(roots: set<Root>) returns (ready: bool)
      modifies this`upsets
      ensures ready ==> forall r :: r in roots ==> r in captured
      ensures upsets == old(upsets) + if ready then [] else [NotRecreated(roots)]
    {
      ready := *;
      ready := ready && forall r :: r in roots ==> r in captured;
      upsets := upsets + if ready then [] else [NotRecreated(roots)];
    }

    /** The callback brings the roots back, or fails and leaves them in any state. */
    method RecreationEnds(roots: set<Root>) returns (ok: bool, damage: Disk)
      modifies this`upsets
      ensures upsets == old(upsets) + if ok then [] else [NotRecreated(roots)]
    {
      ok, damage := *, *;
      upsets := upsets + if ok then [] else [NotRecreated(roots)];
    }
  }
}
