/** The tool's loop: one pass over the payloads that updates flags, bounds and two lists. */
module ExportTool {
  import opened Options
  import opened AddExport

  /** The inner loop over an export section's entries. */
  method CopyExports(list: seq<Export>, name: nat, rebuilt0: seq<Export>, present0: bool)
    returns (ok: bool, rebuilt: seq<Export>, present: bool)
    ensures ok == Supported(list)
    ensures ok ==> rebuilt == rebuilt0 + list && present == (present0 || Named(list, name))
  {
    rebuilt, present := rebuilt0, present0;
    var i := 0;
    assert rebuilt0 + list[..0] == rebuilt0;
    while i < |list|
      invariant i <= |list|
      invariant rebuilt == rebuilt0 + list[..i] && present == (present0 || Named(list[..i], name)) && Supported(list[..i])
    {
      if list[i].kind == OtherKind {
        return false, rebuilt, present;
      }
      NamedStep(list, i, name);
      if list[i].name == name {
        present := true;
      }
      rebuilt := rebuilt + [list[i]];
      i := i + 1;
    }
    assert list[..i] == list;
    ok := true;
  }

  lemma NamedStep(list: seq<Export>, i: nat, name: nat)
    requires i < |list|
    ensures list[..i + 1] == list[..i] + [list[i]]
    ensures Named(list[..i + 1], name) <==> Named(list[..i], name) || list[i].name == name
  {
    if Named(list[..i], name) {
      var k :| 0 <= k < i && list[..i][k].name == name;
      assert list[..i + 1][k].name == name;
    }
    if list[i].name == name {
      assert list[..i + 1][i].name == name;
    }
  }

  /** The code section, if both its bounds are known. */
  method FlushCode(wasm: Bytes, emitted0: seq<Emitted>, codeStart: Option<nat>, codeEnd: Option<nat>) returns (emitted: seq<Emitted>)
    ensures forall st: State :: st.emitted == emitted0 && st.codeStart == codeStart && st.codeEnd == codeEnd ==>
      Flush(wasm, st) == st.(emitted := emitted, codeStart := None, codeEnd := None)
  {
    emitted := emitted0;
    if codeStart.Some? && codeEnd.Some? {
      emitted := emitted + [Raw(CODE, Slice(wasm, codeStart.value, codeEnd.value))];
    } else {
      assert emitted + [] == emitted;
    }
  }

  /** `add_export`. */
  method RewriteModule(wasm: Bytes, secs: seq<Section>, extra: Export) returns (out: Option<seq<Content>>)
    ensures out == Rewrite(wasm, secs, extra)
  {
    var emitted: seq<Emitted> := [];
    var sawExport, inserted := false, false;
    var rebuilt, present := [], false;
    var codeStart, codeEnd := None, None;
    var ps, i := Payloads(secs), 0;
    ghost var target := Run(wasm, extra, INITIAL, ps);
    assert ps[0..] == ps;
    hide Payloads, Flush, Slice, Supported, Named;
    while i < |ps|
      invariant i <= |ps|
      invariant Run(wasm, extra, State(emitted, sawExport, inserted, rebuilt, present, codeStart, codeEnd), ps[i..]) == target
    {
      ghost var st := State(emitted, sawExport, inserted, rebuilt, present, codeStart, codeEnd);
      var p := ps[i];
      RunStep(wasm, extra, st, ps, i);
      hide Run;
      if !sawExport && !inserted && InsertBefore(p) {
        emitted, inserted := emitted + [NewExport], true;
      }
      match p {
        case Contents(id, start, end) =>
          if id == DATA || id == TAG {
            emitted := FlushCode(wasm, emitted, codeStart, codeEnd);
            codeStart, codeEnd := None, None;
          }
          emitted := emitted + [Raw(id, Slice(wasm, start, end))];
        case ExportList(list) =>
          sawExport := true;
          var ok;
          ok, rebuilt, present := CopyExports(list, extra.name, rebuilt, present);
          if !ok {
            return None;
          }
          if !present {
            rebuilt := rebuilt + [extra];
          } else {
            assert rebuilt + [] == rebuilt;
          }
          emitted := emitted + [NewExport];
        case CodeStart(start) => codeStart := Some(start);
        case CodeEntry(end) => codeEnd := Some(end);
        case _ =>
      }
      assert Step(wasm, extra, st, p) == Some(State(emitted, sawExport, inserted, rebuilt, present, codeStart, codeEnd));
      i := i + 1;
    }
    ghost var last := State(emitted, sawExport, inserted, rebuilt, present, codeStart, codeEnd);
    assert ps[i..] == [] && target == Some(last);
    hide Run, Step;
    emitted := FlushCode(wasm, emitted, codeStart, codeEnd);
    if !sawExport && !inserted {
      rebuilt, emitted := [extra], emitted + [NewExport];
    }
    assert (emitted, rebuilt) == (Finish(wasm, extra, last).emitted, Finish(wasm, extra, last).rebuilt);
    var sections := Assemble(emitted, rebuilt);
    out := Some(sections);
  }

  lemma RunStep(wasm: Bytes, extra: Export, st: State, ps: seq<Payload>, i: nat)
    requires i < |ps|
    ensures var r := Step(wasm, extra, st, ps[i]);
      Run(wasm, extra, st, ps[i..]) == if r.None? then None else Run(wasm, extra, r.value, ps[i + 1..])
  {
    hide Step;
    assert ps[i..][0] == ps[i] && ps[i..][1..] == ps[i + 1..];
  }

  /** The new module's sections, in the order they were emitted. */
  method Assemble(es: seq<Emitted>, rebuilt: seq<Export>) returns (cs: seq<Content>)
    ensures cs == Written(es, rebuilt)
  {
    cs := [];
    var i := 0;
    assert es[0..] == es;
    while i < |es|
      invariant i <= |es| && cs + Written(es[i..], rebuilt) == Written(es, rebuilt)
    {
      assert es[i..][0] == es[i] && es[i..][1..] == es[i + 1..];
      var c := if es[i].NewExport? then List(rebuilt) else Bin(es[i].id, es[i].data);
      assert (cs + [c]) + Written(es[i + 1..], rebuilt) == cs + ([c] + Written(es[i + 1..], rebuilt));
      cs := cs + [c];
      i := i + 1;
    }
    assert es[i..] == [] && cs + [] == cs;
  }
}
