/** The emitter as it runs: a list that is appended to and a counter, while recursing. */
module MarshalEmitter {
  import opened Marshal

  class Emitter {
    var decls: seq<Decl>
    var n: nat

    ghost function View(): Em
      reads this
    {
      Em(decls, n)
    }

    constructor ()
      ensures View() == Em([], 0)
    {
      decls, n := [], 0;
    }

    /** `uid`. */
    method Uid(base: Base) returns (name: Name)
      modifies this
      ensures View() == old(View()).(n := old(n) + 1) && name == Name(base, n)
    {
      n := n + 1;
      name := Name(base, n);
    }

    /** `arg_spec_body`. */
    method ArgSpecBody(a: Node) returns (b: Body)
      modifies this
      ensures (b, View()) == EmitArg(a, old(View()))
      decreases a, 0
    {
      match a.kind {
        case Handle => return HandleBody(Get(a.handleClass, VOID_CLASS));
        case Ptr =>
        case _ => return ScalarBody;
      }
      var to := NoRef;
      if a.sizeKind == PtrArray {
        if a.pointee != [] {
          var name := EmitElement(a.pointee[0]);
          to := ElementRef(name);
        }
      } else if a.pointee != [] && a.pointee[0].kind == Struct {
        var name := EmitLayout(a.pointee[0]);
        to := LayoutRef(name);
      } else if a.pointee != [] && a.pointee[0].kind == PtrIntoArg {
        to := IntoRef(Get(a.pointee[0].intoArg, 0) + 1);
      }
      b := PtrBody(DirOf(a.dir), SizeOf(a), to);
    }

    /** `emit_element`. */
    method EmitElement(node: Node) returns (name: Name)
      modifies this
      ensures (name, View()) == PutElement(EmitArg(node, old(View())).0, EmitArg(node, old(View())).1)
      decreases node, 1
    {
      var body := ArgSpecBody(node);
      name := Uid(Elem);
      decls := decls + [SpecDecl(name, body)];
    }

    /** `emit_layout`. */
    method EmitLayout(st: Node) returns (name: Name)
      modifies this
      ensures (name, View()) == PutLayout(EmitFields(st.fields, old(View())).0, Get(st.size, 0), EmitFields(st.fields, old(View())).1)
      decreases st, 1
    {
      hide EmitArg;
      var fields := st.fields;
      var inits := [];
      var i := 0;
      ghost var target := EmitFields(fields, View());
      assert fields[0..] == fields;
      while i < |fields|
        invariant i <= |fields|
        invariant inits + EmitFields(fields[i..], View()).0 == target.0
        invariant EmitFields(fields[i..], View()).1 == target.1
      {
        assert fields[i..][1..] == fields[i + 1..];
        ghost var before := View();
        var specName := Uid(FSpec);
        var body := ArgSpecBody(fields[i]);
        decls := decls + [SpecDecl(specName, body)];
        var init := FieldInit(Get(fields[i].offset, 0), specName, fields[i].touched);
        assert EmitFields(fields[i..], before).0 == [init] + EmitFields(fields[i + 1..], View()).0;
        Shift(inits, init, EmitFields(fields[i + 1..], View()).0);
        inits := inits + [init];
        i := i + 1;
      }
      assert fields[i..] == [] && inits == target.0;
      var fieldsName := Uid(Fields);
      decls := decls + [FieldsDecl(fieldsName, inits)];
      name := Uid(Layout);
      InitCount(fields, old(View()));
      decls := decls + [LayoutDecl(name, |fields|, fieldsName, Get(st.size, 0))];
    }

    /** `emit_function_spec`. */
    method EmitFunctionSpec(f: Function) returns (spec: SpecDef)
      modifies this
      ensures (spec, View()) == (SpecDef(f.name, EmitArgs(f.args, old(View())).0, RetOf(f.ret)), EmitArgs(f.args, old(View())).1)
    {
      hide EmitArg;
      var bodies := [];
      var i := 0;
      ghost var target := EmitArgs(f.args, View());
      assert f.args[0..] == f.args;
      while i < |f.args|
        invariant i <= |f.args|
        invariant bodies + EmitArgs(f.args[i..], View()).0 == target.0
        invariant EmitArgs(f.args[i..], View()).1 == target.1
      {
        assert f.args[i..][1..] == f.args[i + 1..];
        ghost var before := View();
        var b := ArgSpecBody(f.args[i]);
        assert EmitArgs(f.args[i..], before).0 == [b] + EmitArgs(f.args[i + 1..], View()).0;
        Shift(bodies, b, EmitArgs(f.args[i + 1..], View()).0);
        bodies := bodies + [b];
        i := i + 1;
      }
      assert f.args[i..] == [] && bodies == target.0;
      spec := SpecDef(f.name, bodies, RetOf(f.ret));
    }
  }

  lemma Shift<T>(a: seq<T>, x: T, b: seq<T>)
    ensures (a + [x]) + b == a + ([x] + b)
  {
  }

  lemma {:induction false} InitCount(fs: seq<Node>, em: Em)
    ensures |EmitFields(fs, em).0| == |fs|
    decreases |fs|
  {
    hide EmitArg;
    if fs != [] {
      var (body, em1) := EmitArg(fs[0], em.(n := em.n + 1));
      InitCount(fs[1..], em1.(decls := em1.decls + [SpecDecl(Name(FSpec, em.n + 1), body)]));
    }
  }

  /** The generator: the declarations and specs of the functions that can be marshalled. */
  method Generate(fs: seq<Function>, excluded: set<nat>) returns (decls: seq<Decl>, specs: seq<SpecDef>)
    ensures specs == EmitFunctions(Accepted(fs, excluded), Em([], 0)).0
    ensures decls == EmitFunctions(Accepted(fs, excluded), Em([], 0)).1.decls
  {
    hide IsMarshalable, EmitArgs;
    var em := new Emitter();
    specs := [];
    var i := 0;
    ghost var target := EmitFunctions(Accepted(fs, excluded), em.View());
    assert fs[0..] == fs;
    while i < |fs|
      invariant i <= |fs| && fresh(em)
      invariant specs + EmitFunctions(Accepted(fs[i..], excluded), em.View()).0 == target.0
      invariant EmitFunctions(Accepted(fs[i..], excluded), em.View()).1 == target.1
    {
      AcceptedStep(fs, i, excluded);
      if IsMarshalable(fs[i], excluded) {
        ghost var before := em.View();
        ghost var rest := Accepted(fs[i + 1..], excluded);
        var spec := em.EmitFunctionSpec(fs[i]);
        assert ([fs[i]] + rest)[1..] == rest;
        assert EmitFunctions([fs[i]] + rest, before).0 == [spec] + EmitFunctions(rest, em.View()).0;
        Shift(specs, spec, EmitFunctions(rest, em.View()).0);
        specs := specs + [spec];
      }
      i := i + 1;
    }
    assert fs[i..] == [] && EmitFunctions([], em.View()) == ([], em.View());
    assert specs + [] == specs;
    decls := em.decls;
  }

  lemma AcceptedStep(fs: seq<Function>, i: nat, excluded: set<nat>)
    requires i < |fs|
    ensures Accepted(fs[i..], excluded)
         == if IsMarshalable(fs[i], excluded) then [fs[i]] + Accepted(fs[i + 1..], excluded) else Accepted(fs[i + 1..], excluded)
  {
    hide IsMarshalable;
    assert fs[i..][1..] == fs[i + 1..];
  }
}
