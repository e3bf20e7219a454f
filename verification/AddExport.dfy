/**
 The tool that adds an export to a WebAssembly module. It goes through the parser's payloads
 once, keeps flags and the bounds of the code section, and writes the sections out again.
 Section numbers and their order are those of section 5.5 of the WebAssembly Core
 Specification, with the tag section between memories and globals.
 */
module AddExport {
  import opened Options

  type Bytes = seq<bv8>

  datatype Kind = Func | TableKind | Memory | Global | TagKind | OtherKind
  datatype Export = Export(name: nat, kind: Kind, index: nat)

  const CUSTOM: nat := 0
  const GLOBAL: nat := 6
  const START: nat := 8
  const ELEMENT: nat := 9
  const CODE: nat := 10
  const DATA: nat := 11
  const DATA_COUNT: nat := 12
  const TAG: nat := 13

  /** A section: where its contents are, its exports, or where its function bodies end. */
  datatype Section =
    | Plain(id: nat, start: nat, end: nat)
    | Exports(list: seq<Export>)
    | Code(start: nat, end: nat, ends: seq<nat>)

  datatype Payload =
    | Version
    | Contents(id: nat, start: nat, end: nat)
    | ExportList(list: seq<Export>)
    | CodeStart(start: nat)
    | CodeEntry(end: nat)
    | End

  /** What the parser yields for a module. */
  function Payloads(secs: seq<Section>): seq<Payload> {
    [Version] + Middle(secs) + [End]
  }

  function Middle(secs: seq<Section>): seq<Payload> {
    if secs == [] then [] else PayloadsOf(secs[0]) + Middle(secs[1..])
  }

  function PayloadsOf(s: Section): seq<Payload> {
    match s
    case Plain(id, start, end) => [Contents(id, start, end)]
    case Exports(list) => [ExportList(list)]
    case Code(start, _, ends) => [CodeStart(start)] + Entries(ends)
  }

  function Entries(ends: seq<nat>): seq<Payload> {
    if ends == [] then [] else [CodeEntry(ends[0])] + Entries(ends[1..])
  }

  // ---- the loop ----

  datatype Emitted = Raw(id: nat, data: Bytes) | NewExport

  datatype State = State(
    emitted: seq<Emitted>,
    sawExport: bool,
    inserted: bool,
    rebuilt: seq<Export>,
    present: bool,
    codeStart: Option<nat>,
    codeEnd: Option<nat>)

  const INITIAL := State([], false, false, [], false, None, None)

  function Slice(wasm: Bytes, start: nat, end: nat): Bytes {
    if start <= end <= |wasm| then wasm[start..end] else []
  }

  /** `should_insert_export_before`. */
  predicate InsertBefore(p: Payload) {
    match p
    case Contents(id, _, _) => id == START || id == ELEMENT || id == DATA_COUNT || id == DATA || id == TAG
    case CodeStart(_) => true
    case _ => false
  }

  function Insert(st: State, p: Payload): State {
    if !st.sawExport && !st.inserted && InsertBefore(p)
    then st.(emitted := st.emitted + [NewExport], inserted := true)
    else st
  }

  /** Write the code section if both its bounds are known; either way they are forgotten. */
  function Flush(wasm: Bytes, st: State): State {
    st.(emitted := st.emitted + Pending(wasm, st), codeStart := None, codeEnd := None)
  }

  function Pending(wasm: Bytes, st: State): seq<Emitted> {
    if st.codeStart.Some? && st.codeEnd.Some? then [Raw(CODE, Slice(wasm, st.codeStart.value, st.codeEnd.value))] else []
  }

  predicate Supported(list: seq<Export>) {
    forall i :: 0 <= i < |list| ==> list[i].kind != OtherKind
  }

  predicate Named(list: seq<Export>, name: nat) {
    exists i :: 0 <= i < |list| && list[i].name == name
  }

  /** One payload; None is an export of an unsupported kind. */
  function Step(wasm: Bytes, extra: Export, st0: State, p: Payload): Option<State> {
    var st := Insert(st0, p);
    match p
    case Contents(id, start, end) =>
      var st1 := if id == DATA || id == TAG then Flush(wasm, st) else st;
      Some(st1.(emitted := st1.emitted + [Raw(id, Slice(wasm, start, end))]))
    case ExportList(list) =>
      if !Supported(list) then None
      else
        var present := st.present || Named(list, extra.name);
        Some(st.(sawExport := true, present := present, emitted := st.emitted + [NewExport],
                 rebuilt := st.rebuilt + list + if present then [] else [extra]))
    case CodeStart(start) => Some(st.(codeStart := Some(start)))
    case CodeEntry(end) => Some(st.(codeEnd := Some(end)))
    case _ => Some(st)
  }

  function Run(wasm: Bytes, extra: Export, st: State, ps: seq<Payload>): Option<State>
    decreases |ps|
  {
    if ps == [] then Some(st)
    else
      match Step(wasm, extra, st, ps[0])
      case None => None
      case Some(st1) => Run(wasm, extra, st1, ps[1..])
  }

  /** After the loop: the code section if it is still to come, and exports if there were none. */
  function Finish(wasm: Bytes, extra: Export, st0: State): State {
    var st := Flush(wasm, st0);
    if !st.sawExport && !st.inserted then st.(rebuilt := [extra], emitted := st.emitted + [NewExport]) else st
  }

  // ---- modules by their contents ----

  datatype Content = Bin(id: nat, data: Bytes) | List(exports: seq<Export>)

  function ContentOf(wasm: Bytes, s: Section): Content {
    match s
    case Plain(id, start, end) => Bin(id, Slice(wasm, start, end))
    case Exports(list) => List(list)
    case Code(start, end, _) => Bin(CODE, Slice(wasm, start, end))
  }

  function AllContents(wasm: Bytes, secs: seq<Section>): seq<Content> {
    if secs == [] then [] else [ContentOf(wasm, secs[0])] + AllContents(wasm, secs[1..])
  }

  function Written(es: seq<Emitted>, rebuilt: seq<Export>): seq<Content> {
    if es == [] then []
    else [if es[0].NewExport? then List(rebuilt) else Bin(es[0].id, es[0].data)] + Written(es[1..], rebuilt)
  }

  /** `add_export`: the contents of the new module. */
  function Rewrite(wasm: Bytes, secs: seq<Section>, extra: Export): Option<seq<Content>> {
    match Run(wasm, extra, INITIAL, Payloads(secs))
    case None => None
    case Some(st) =>
      var last := Finish(wasm, extra, st);
      Some(Written(last.emitted, last.rebuilt))
  }
}
