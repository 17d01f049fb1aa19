/** Publication of evaluation reports as a state machine over one directory.
    Any number of processes reserve timestamp slots and write reports; each file
    operation is one step, and a process may fail or crash between any two. */
module ReportProtocol {
  /** The three finals of a slot, in the order they are created. */
  datatype Kind = Json | Markdown | Marker

  datatype Path = Lock(slot: nat) | Out(slot: nat, kind: Kind) | Temp(slot: nat, kind: Kind)

  /** The text of a file. Rendering tells reports and formats apart, and a
      digest stands for the text it was computed from. */
  datatype Content =
    | Empty
    | Partial
    | Rendered(kind: Kind, report: nat)
    | Digests(json: Content, markdown: Content)

  type Files = map<Path, Content>

  datatype Pc =
    | Probing(kind: Kind)
    | Locking
    | Rechecking(kind: Kind)
    | Backing
    | Opening(kind: Kind)
    | Filling(kind: Kind)
    | Claiming(kind: Kind)
    | Renaming(kind: Kind)
    | Digesting
    | Undoing
    | Sweeping(ok: bool)
    | Releasing(ok: bool)
    | Done(ok: bool)
    | Crashed(held: bool)

  /** `outs` and `temps` are the source's lists of created paths; `search` tells
      a caller that moves on to the next second from one that gives up. */
  datatype Proc = Proc(
    slot: nat, report: nat, search: bool, pc: Pc, outs: set<Kind>, temps: set<Kind>, digests: Content)

  type Pid = nat

  datatype Dir = Dir(files: Files, procs: map<Pid, Proc>)

  datatype Label =
    | Begin(pid: Pid, slot: nat, report: nat, search: bool)
    | Do(pid: Pid)
    | Spill(pid: Pid)
    | Remove(pid: Pid, kind: Kind)
    | Fail(pid: Pid)
    | Crash(pid: Pid)

  const Initial := Dir(map[], map[])

  predicate Holds(pc: Pc) {
    match pc
    case Probing(_) => false
    case Locking => false
    case Done(_) => false
    case Crashed(held) => held
    case _ => true
  }

  /** The reservation has been handed out and its report is being written. */
  predicate Writing(pc: Pc) {
    pc.Opening? || pc.Filling? || pc.Claiming? || pc.Renaming? || pc.Digesting?
  }

  predicate Halted(pc: Pc) {
    pc.Done? || pc.Crashed?
  }

  /** `is_complete_report_pair`. */
  predicate IsComplete(files: Files, slot: nat) {
    && Out(slot, Json) in files && files[Out(slot, Json)] != Empty
    && Out(slot, Markdown) in files && files[Out(slot, Markdown)] != Empty
    && Out(slot, Marker) in files
    && files[Out(slot, Marker)] == Digests(files[Out(slot, Json)], files[Out(slot, Markdown)])
  }

  /** A slot that is taken: the next second, or the end of the attempt. */
  function MoveOn(p: Proc): Proc {
    if p.search then p.(slot := p.slot + 1, pc := Probing(Json)) else p.(pc := Done(false))
  }

  function Text(p: Proc, kind: Kind): Content {
    if kind == Marker then p.digests else Rendered(kind, p.report)
  }

  predicate Enabled(d: Dir, l: Label) {
    match l
    case Begin(pid, _, _, _) => pid !in d.procs
    case Do(pid) =>
      && pid in d.procs && !Halted(d.procs[pid].pc)
      && (d.procs[pid].pc.Undoing? ==> d.procs[pid].outs == {})
      && (d.procs[pid].pc.Sweeping? ==> d.procs[pid].temps == {})
    case Spill(pid) => pid in d.procs && d.procs[pid].pc.Filling?
    case Remove(pid, kind) =>
      && pid in d.procs
      && (if d.procs[pid].pc.Undoing? then kind in d.procs[pid].outs
          else d.procs[pid].pc.Sweeping? && kind in d.procs[pid].temps)
    case Fail(pid) => pid in d.procs && Writing(d.procs[pid].pc)
    case Crash(pid) => pid in d.procs && !Halted(d.procs[pid].pc)
  }

  /** The step of process `p` when its next file operation does its work. */
  function Advance(files: Files, p: Proc): (Files, Proc) {
    match p.pc
    case Probing(kind) =>
      if Out(p.slot, kind) in files then (files, MoveOn(p))
      else (files, p.(pc := match kind
                            case Json => Probing(Markdown)
                            case Markdown => Probing(Marker)
                            case Marker => Locking))
    case Locking =>
      if Lock(p.slot) in files then (files, MoveOn(p))
      else (files[Lock(p.slot) := Empty], p.(pc := Rechecking(Json)))
    case Rechecking(kind) =>
      if Out(p.slot, kind) in files then (files, p.(pc := Backing))
      else (files, p.(pc := match kind
                            case Json => Rechecking(Markdown)
                            case Markdown => Rechecking(Marker)
                            case Marker => Opening(Json)))
    case Backing => (files - {Lock(p.slot)}, MoveOn(p))
    case Opening(kind) =>
      if Temp(p.slot, kind) in files then (files, p.(pc := Undoing))
      else (files[Temp(p.slot, kind) := Empty], p.(pc := Filling(kind)))
    case Filling(kind) =>
      (files[Temp(p.slot, kind) := Text(p, kind)],
       p.(temps := p.temps + {kind},
          pc := match kind
                case Json => Opening(Markdown)
                case Markdown => Claiming(Json)
                case Marker => Claiming(Marker)))
    case Claiming(kind) =>
      if Out(p.slot, kind) in files then (files, p.(pc := Undoing))
      else (files[Out(p.slot, kind) := Empty],
            p.(outs := p.outs + {kind},
               pc := match kind
                     case Json => Claiming(Markdown)
                     case Markdown => Renaming(Json)
                     case Marker => Renaming(Marker)))
    case Renaming(kind) =>
      if Temp(p.slot, kind) !in files then (files, p.(pc := Undoing))
      else (files[Out(p.slot, kind) := files[Temp(p.slot, kind)]] - {Temp(p.slot, kind)},
            p.(pc := match kind
                     case Json => Renaming(Markdown)
                     case Markdown => Digesting
                     case Marker => Sweeping(true)))
    case Digesting =>
      if || Out(p.slot, Json) !in files || files[Out(p.slot, Json)] == Empty
         || Out(p.slot, Markdown) !in files || files[Out(p.slot, Markdown)] == Empty
      then (files, p.(pc := Undoing))
      else (files, p.(digests := Digests(files[Out(p.slot, Json)], files[Out(p.slot, Markdown)]),
                      pc := Opening(Marker)))
    case Undoing => (files, p.(pc := Sweeping(false)))
    case Sweeping(ok) => (files, p.(pc := Releasing(ok)))
    case Releasing(ok) => (files - {Lock(p.slot)}, p.(pc := Done(ok)))
    case Done(_) => (files, p)
    case Crashed(_) => (files, p)
  }

  /** The effect of a step on the directory and on the process that takes it. */
  function Effect(files: Files, p: Proc, l: Label): (Files, Proc) {
    match l
    case Begin(_, _, _, _) => (files, p)
    case Do(_) => Advance(files, p)
    case Spill(_) => if p.pc.Filling? then (files[Temp(p.slot, p.pc.kind) := Partial], p) else (files, p)
    case Remove(_, kind) =>
      if p.pc.Undoing? then (files - {Out(p.slot, kind)}, p.(outs := p.outs - {kind}))
      else (files - {Temp(p.slot, kind)}, p.(temps := p.temps - {kind}))
    case Fail(_) =>
      (if p.pc.Filling? then files - {Temp(p.slot, p.pc.kind)} else files, p.(pc := Undoing))
    case Crash(_) => (files, p.(pc := Crashed(Holds(p.pc))))
  }

  function Apply(d: Dir, l: Label): Dir
    requires Enabled(d, l)
  {
    if l.Begin? then
      d.(procs := d.procs[l.pid := Proc(l.slot, l.report, l.search, Probing(Json), {}, {}, Empty)])
    else
      var (files, p) := Effect(d.files, d.procs[l.pid], l);
      Dir(files, d.procs[l.pid := p])
  }

  predicate IsRun(d: Dir, labels: seq<Label>)
    decreases |labels|
  {
    labels == [] || (Enabled(d, labels[0]) && IsRun(Apply(d, labels[0]), labels[1..]))
  }

  function Final(d: Dir, labels: seq<Label>): Dir
    requires IsRun(d, labels)
    decreases |labels|
  {
    if labels == [] then d else Final(Apply(d, labels[0]), labels[1..])
  }
}
