/**
 * `generate`: the fixed template expanded over the messages. The output is
 * modelled by its parts rather than as text: the `var ( ... )` block, the body
 * of `All()`, and the `New<Name>` constructors, each in input order.
 */
module Generator {
  import opened Messages
  import opened Patterns
  import opened Validator

  /** `<name> = diag.NewMessageType(diag.<level>, "<code>", "<template>")`, under a comment quoting `description`. */
  datatype Decl = Decl(name: string, level: string, code: string, template: string, description: string)

  /** One parameter of a generated constructor: `<name> <typ>`. */
  datatype Param = Param(name: string, typ: string)

  /**
   * `func <funcName>(<params>) diag.Message { return diag.NewMessage(<forwarded>...) }`
   */
  datatype Ctor = Ctor(funcName: string, params: seq<Param>, forwarded: seq<string>)

  /** The generated file: the declarations, the entries of `All()`, the constructors. */
  datatype GenFile = GenFile(decls: seq<Decl>, all: seq<string>, ctors: seq<Ctor>)

  /** The first parameter of every constructor. */
  const ResourceParam := Param("r", "*resource.Instance")

  /** The declaration of one message. */
  function DeclOf(m: Message): Decl {
    Decl(m.name, m.level, m.code, m.template, m.description)
  }

  /** The constructor's parameters after `r`: one per arg, with its name and type, in declared order. */
  function Params(args: seq<Arg>): (ps: seq<Param>)
    ensures |ps| == |args|
    ensures forall j :: 0 <= j < |args| ==> ps[j] == Param(args[j].name, args[j].typ)
  {
    if args == [] then [] else [Param(args[0].name, args[0].typ)] + Params(args[1..])
  }

  /** The arg names forwarded after `r` in the constructor's call, in declared order. */
  function ArgNames(args: seq<Arg>): (ns: seq<string>)
    ensures |ns| == |args|
    ensures forall j :: 0 <= j < |args| ==> ns[j] == args[j].name
  {
    if args == [] then [] else [args[0].name] + ArgNames(args[1..])
  }

  /** The constructor of one message. */
  function CtorOf(m: Message): Ctor {
    Ctor("New" + m.name, [ResourceParam] + Params(m.args), [m.name, "r"] + ArgNames(m.args))
  }

  /** The `var ( ... )` block: one declaration per message, in order. */
  function Decls(ms: seq<Message>): (ds: seq<Decl>)
    ensures |ds| == |ms|
    ensures forall i :: 0 <= i < |ms| ==> ds[i] == DeclOf(ms[i])
  {
    if ms == [] then [] else [DeclOf(ms[0])] + Decls(ms[1..])
  }

  /** The body of `All()`: one entry per message, in order. */
  function AllEntries(ms: seq<Message>): (es: seq<string>)
    ensures |es| == |ms|
    ensures forall i :: 0 <= i < |ms| ==> es[i] == ms[i].name
  {
    if ms == [] then [] else [ms[0].name] + AllEntries(ms[1..])
  }

  /** The constructors: one per message, in order. */
  function Ctors(ms: seq<Message>): (cs: seq<Ctor>)
    ensures |cs| == |ms|
    ensures forall i :: 0 <= i < |ms| ==> cs[i] == CtorOf(ms[i])
  {
    if ms == [] then [] else [CtorOf(ms[0])] + Ctors(ms[1..])
  }

  /** The whole generated file. */
  function Generate(ms: seq<Message>): GenFile {
    GenFile(Decls(ms), AllEntries(ms), Ctors(ms))
  }

  /**
   * The three parts of the output follow the input: the i-th declaration, the
   * i-th entry of `All()` and the i-th constructor all belong to message i.
   */
  lemma GenerateFollowsInput(ms: seq<Message>)
    ensures var f := Generate(ms);
      |f.decls| == |ms| && |f.all| == |ms| && |f.ctors| == |ms| &&
      forall i :: 0 <= i < |ms| ==>
        f.decls[i].name == ms[i].name && f.decls[i].code == ms[i].code &&
        f.all[i] == ms[i].name &&
        f.ctors[i].funcName == "New" + ms[i].name
  {
  }

  /** No messages: no declarations, an empty `All()` body, no constructors. */
  lemma GenerateEmpty()
    ensures Generate([]) == GenFile([], [], [])
  {
  }

  /**
   * `New<Name>` takes `r` and then one parameter per arg in declared order,
   * and forwards the message, `r`, then the arg names in that same order.
   */
  lemma CtorShape(m: Message)
    ensures var c := CtorOf(m);
      |c.params| == 1 + |m.args| && c.params[0] == Param("r", "*resource.Instance") &&
      (forall j :: 0 <= j < |m.args| ==> c.params[j + 1] == Param(m.args[j].name, m.args[j].typ)) &&
      |c.forwarded| == 2 + |m.args| && c.forwarded[0] == m.name && c.forwarded[1] == "r" &&
      (forall j :: 0 <= j < |m.args| ==> c.forwarded[j + 2] == m.args[j].name)
  {
  }

  /** Every forwarded argument is a parameter of the constructor, past the message itself. */
  lemma ForwardedAreParams(m: Message)
    ensures var c := CtorOf(m);
      forall j :: 1 <= j < |c.forwarded| ==> c.forwarded[j] == c.params[j - 1].name
  {
  }

  /** Prefixing with `New` keeps distinct names distinct. */
  lemma NewPrefixInjective(a: string, b: string)
    requires "New" + a == "New" + b
    ensures a == b
  {
    assert a == ("New" + a)[3..];
    assert b == ("New" + b)[3..];
  }

  /**
   * After a successful validation, within each part of the output no two
   * declarations, no two `All()` entries and no two constructors share a name.
   */
  lemma ValidatedOutputHasUniqueNames(ms: seq<Message>)
    requires Verdict(ms) == Pass
    ensures var f := Generate(ms);
      forall i, j :: 0 <= i < j < |ms| ==>
        f.decls[i].name != f.decls[j].name &&
        f.all[i] != f.all[j] &&
        f.ctors[i].funcName != f.ctors[j].funcName
  {
    VerdictPassIffWellFormed(ms);
    var f := Generate(ms);
    forall i, j | 0 <= i < j < |ms|
      ensures f.ctors[i].funcName != f.ctors[j].funcName
    {
      if f.ctors[i].funcName == f.ctors[j].funcName {
        NewPrefixInjective(ms[i].name, ms[j].name);
      }
    }
  }

  /** The single message Foo gives one declaration, `All()` returning Foo, and `NewFoo(r)`. */
  lemma SingleMessageExample()
    ensures var m := Message("Foo", "IST0001", "Error", "", "bad thing", "", []);
      Verdict([m]) == Pass &&
      Generate([m]) == GenFile(
        [Decl("Foo", "Error", "IST0001", "bad thing", "")],
        ["Foo"],
        [Ctor("NewFoo", [Param("r", "*resource.Instance")], ["Foo", "r"])])
  {
    var m := Message("Foo", "IST0001", "Error", "", "bad thing", "", []);
    CodeExamples();
    NameExamples();
    assert Fault([m], 0) == None;
    assert "New" + "Foo" == "NewFoo";
    assert CtorOf(m) == Ctor("NewFoo", [Param("r", "*resource.Instance")], ["Foo", "r"]);
  }

  /**
   * Validation does not keep names unique across parts: a message named
   * `NewFoo` passes beside `Foo`, and its declaration shares its name with
   * the constructor of `Foo`.
   */
  lemma CrossPartClashExample()
    ensures var ms := [Msg("Foo", "IST0001"), Msg("NewFoo", "IST0002")];
      Verdict(ms) == Pass &&
      Generate(ms).decls[1].name == Generate(ms).ctors[0].funcName == "NewFoo"
  {
  }
}
