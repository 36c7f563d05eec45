# Diagnostic message generator (Istio galley) — Dafny model

Istio's galley keeps its analyzer diagnostics in a YAML list. A build-time
generator, `galley/pkg/config/analysis/msg/generate.main.go`, reads that list,
checks it with `validate` and writes `messages.gen.go` from a fixed template.
This project models the two parts that hold logic:

- **`validate`** (`validator.dfy`, module `Validator`). It makes one pass over the
  messages in input order. It keeps the sets of codes and names seen so far and
  stops at the first message that breaks a rule. Within one message the rules are
  checked in this order: code shape, repeated code, name shape, repeated name.
  `Validator.Validate` is that loop as an imperative method with two `set<string>`
  variables. Its result is proved equal to `Verdict`, a function of the input
  that gives either `Pass` or the first violation (position, rule, quoted value).
  Lemmas then characterise `Verdict`. It passes exactly on well-formed lists:
  well-shaped codes and names, pairwise distinct. When it fails, it reports the
  first violation. Further lemmas cover a bad code, a repeated code, a bad
  name and a repeated name.
- **the two patterns** (`patterns.dfy`, module `Patterns`). `^IST\d\d\d\d$` and
  `^[[:upper:]]\w*$` are written as ASCII character predicates. Go's RE2 classes
  `\d`, `[[:upper:]]` and `\w` are ASCII-only. `^…$` without the multi-line flag
  anchors at the ends of the whole string.
- **`generate`** (`generator.dfy`, module `Generator`). The template is modelled by
  the parts it expands into, not as text. These parts are:
  - the `var ( … )` declarations;
  - the entries of `All()`;
  - the `New<Name>` constructors, each with its parameter list and its forwarded
    arguments.

  Each part is a recursive function over the messages, like the template's
  `{{range}}`. Each function's contract says that entry i belongs to message i.
- **the records** (`messages.dfy`, module `Messages`): `message` and `arg` after
  YAML unmarshalling. The input is taken as a `seq<Message>`.

Facts about the source that the model keeps:
- The constructor's base parameter is `r *resource.Instance` (generate.main.go:148).
- The repeated-code error quotes the code (generate.main.go:98). The other three
  errors quote the message's name (generate.main.go:94, 107, 111).
- Only the two shape errors mention a pattern (generate.main.go:94, 107).
- Validation keeps names distinct within each part of the output, not across
  parts. A message named `NewFoo` passes beside one named `Foo`, and then
  `NewFoo` is declared both as a message value and as `Foo`'s constructor.
  Likewise a message named `All` clashes with `func All()`.

## Model

| member | source | states |
|---|---|---|
| `Patterns.CodeExamples` | galley/pkg/config/analysis/msg/generate.main.go:30 | `IST0001` has the code shape; `IST001`, `IST00001`, `ist0001`, `IST000a` and the empty string do not |
| `Patterns.NameExamples` | galley/pkg/config/analysis/msg/generate.main.go:31 | `Foo`, `A` and `Bad_Thing2` have the name shape; an empty string, a lower-case, `_` or digit start, `-` and a space do not |
| `Validator.Validate` | galley/pkg/config/analysis/msg/generate.main.go:84-116 | the loop, with `codes` and `names` as growing sets, returns exactly `Verdict(ms)`; its invariant keeps the sets equal to the codes and names of the messages already checked |
| `Validator.ScanFromSpec` | galley/pkg/config/analysis/msg/generate.main.go:88-114 | checking from message i on passes iff no message from i on breaks a rule; a failure names a message at or after i that breaks the reported rule, with the quoted value, and no message between i and it breaks any rule |
| `Validator.NoFaultIffWellFormed` | galley/pkg/config/analysis/msg/generate.main.go:89-113 | every message passing its four checks is the same as: all codes and names well shaped, and codes and names pairwise distinct |
| `Validator.VerdictPassIffWellFormed` | galley/pkg/config/analysis/msg/generate.main.go:83-116 | `validate` succeeds exactly when all codes and names are well shaped and neither codes nor names repeat |
| `Validator.EmptyPasses` | galley/pkg/config/analysis/msg/generate.main.go:84-115 | an empty list passes |
| `Validator.VerdictIsFirstViolation` | galley/pkg/config/analysis/msg/generate.main.go:88-113 | `validate` fails with v iff v is the first violation: the earliest message breaking a rule, with the first rule it breaks in check order and the value the error quotes |
| `Validator.FaultAtFails` | galley/pkg/config/analysis/msg/generate.main.go:88-113 | if message k breaks a rule, validation fails at k or earlier, and at k with that rule and quoted value |
| `Validator.BadCodeFails` | galley/pkg/config/analysis/msg/generate.main.go:89-95 | a code without the `IST`+4-digit shape makes validation fail at that message or earlier; at it, the error is the code-shape error quoting the message's name |
| `Validator.DuplicateCodeFails` | galley/pkg/config/analysis/msg/generate.main.go:97-100 | a code repeated at k fails at k or earlier, whatever the names; at k, the error is the repeated-code error quoting the code |
| `Validator.BadNameFails` | galley/pkg/config/analysis/msg/generate.main.go:102-108 | a name without the upper-case-then-word-characters shape makes validation fail at that message or earlier; at it, when its code passed both checks, the error is the name-shape error quoting the name |
| `Validator.DuplicateNameFails` | galley/pkg/config/analysis/msg/generate.main.go:110-113 | a name repeated at k fails at k or earlier, whatever the codes; at k, when the code there passed both checks, the error is the repeated-name error quoting the name |
| `Validator.CheckOrderExample` | galley/pkg/config/analysis/msg/generate.main.go:97-107 | a message with a repeated code and a badly shaped name reports the repeated code |
| `Validator.ShapeAndNameExamples` | galley/pkg/config/analysis/msg/generate.main.go:89-113 | a three-digit code fails on its shape, quoting the name; two messages named `Bar` with distinct codes fail on the repeated name at the second |
| `Generator.Params` | galley/pkg/config/analysis/msg/generate.main.go:148 | one parameter per arg, in declared order, with the arg's name and type |
| `Generator.ArgNames` | galley/pkg/config/analysis/msg/generate.main.go:152-154 | the forwarded arg names, one per arg, in declared order |
| `Generator.Decls` | galley/pkg/config/analysis/msg/generate.main.go:129-135 | one declaration per message, the i-th built from message i (name, level, code, template, description) |
| `Generator.AllEntries` | galley/pkg/config/analysis/msg/generate.main.go:138-144 | the body of `All()` lists the message names, one per message, in input order |
| `Generator.Ctors` | galley/pkg/config/analysis/msg/generate.main.go:146-157 | one constructor per message, the i-th built from message i |
| `Generator.GenerateFollowsInput` | galley/pkg/config/analysis/msg/generate.main.go:129-157 | declarations, `All()` entries and constructors each number one per message, and their i-th elements carry message i's name (and code, and `New` + name) |
| `Generator.GenerateEmpty` | galley/pkg/config/analysis/msg/generate.main.go:129-157 | no messages give no declarations, an empty `All()` body and no constructors |
| `Generator.CtorShape` | galley/pkg/config/analysis/msg/generate.main.go:147-156 | `New<Name>` takes `r *resource.Instance` and then one parameter per arg in declared order; it forwards the message, `r`, then the arg names in that order |
| `Generator.ForwardedAreParams` | galley/pkg/config/analysis/msg/generate.main.go:148-155 | every forwarded value after the message is the constructor's parameter at the matching position |
| `Generator.ValidatedOutputHasUniqueNames` | galley/pkg/config/analysis/msg/generate.main.go:83-116 | after a successful validation, no two declarations, `All()` entries or constructors share a name |
| `Generator.CrossPartClashExample` | galley/pkg/config/analysis/msg/generate.main.go:130-148 | messages `Foo` and `NewFoo` pass validation, yet the declaration of `NewFoo` and the constructor of `Foo` carry the same name |
| `Generator.SingleMessageExample` | galley/pkg/config/analysis/msg/generate.main.go:118-157 | the single message `Foo`/`IST0001` validates, and it gives one declaration `Foo`, `All()` returning `[Foo]` and the constructor `NewFoo(r)` forwarding `Foo, r` |

## Left out

- `main` (generate.main.go:35-66): the argument count check, the exit codes, printing and writing the output file are process plumbing.
- `read` (generate.main.go:68-81): reading the file and YAML unmarshalling are I/O and a foreign library. The model takes the parsed list of messages as input.
- The error return of `regexp.MatchString` (generate.main.go:90-92, 103-105) cannot happen with the two fixed, valid patterns. The patterns are predicates.
- The wording of the errors and `%q` quoting are not modelled. A `Violation` keeps the rule, the quoted value and, in addition, the message's position.
- Go `text/template`: exact text, whitespace, `{{-` trimming, the `template.Must` panic and the `Execute` error path are not modelled. With the fixed template and in-memory buffer they do not fire. The output is modelled as its declarations, `All()` entries and constructors.
- Go strings are byte strings and RE2 matches UTF-8. Characters stand in for bytes here. This changes nothing for these ASCII-only patterns, because no non-ASCII character matches either of them.
- `level`, `description`, `template` and the arg names and types are copied without checks, and `url` is never read. The model does not invent checks for them.
