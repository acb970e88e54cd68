/** The diagnostic bag of src/CodeAnalysis/DiagnosticBag.ts.

    The bag is a stack of diagnostics in the order they were reported. Each
    reporter builds one diagnostic, tagged with the phase it belongs to and
    carrying a message that embeds its arguments in a fixed template,
    pushes it and returns it. Syntax and bound kinds are written into
    messages by name, so they are strings here. */
module Diagnostics {

  /** `DiagnoseKind`: the phase that reported a diagnostic. */
  datatype Phase = Lexer | Parser | Environment | Evaluator | Binder

  /** `Diagnose`: a phase and a message. */
  datatype Diagnose = Diagnose(kind: Phase, message: string)

  /** The eleven reporters that take one argument: a reference name, a
      token's text, or a syntax or bound kind. */
  datatype Reporter =
    | BadTokenFound | UndeclaredVariable | MissingEvaluationMethod | MissingOperatorKind
    | CircularDependency | MissingBindingMethod | CantUseAsAReference | ReferenceCannotBeFound
    | CannotRedeclareReference | ValueDoesNotExist | UsedBeforeDeclaration

  /** A call of one of the thirteen reporters, with its arguments. */
  datatype Report =
    | Single(reporter: Reporter, argument: string)
    | TokenNotAMatch(expected: string, matched: string)
    | EmptySyntaxForEvaluator

  /** The phase a reporter tags its diagnostic with: only bad tokens belong
      to the lexer and only mismatched tokens to the parser; undeclared
      references and missing values belong to the environment; a missing
      evaluation method and an empty program to the evaluator; everything
      else to the binder. */
  function PhaseOf(r: Report): (p: Phase)
    ensures p == Lexer <==> r.Single? && r.reporter == BadTokenFound
    ensures p == Parser <==> r.TokenNotAMatch?
    ensures p == Environment <==> r.Single? && r.reporter in {UndeclaredVariable, ValueDoesNotExist}
    ensures p == Evaluator <==> r.EmptySyntaxForEvaluator? || (r.Single? && r.reporter == MissingEvaluationMethod)
    ensures p == Binder <==> (r.Single? && r.reporter in
      {MissingOperatorKind, CircularDependency, MissingBindingMethod, CantUseAsAReference,
       ReferenceCannotBeFound, CannotRedeclareReference, UsedBeforeDeclaration})
  {
    match r
    case Single(BadTokenFound, _) => Lexer
    case Single(UndeclaredVariable, _) => Environment
    case Single(ValueDoesNotExist, _) => Environment
    case Single(MissingEvaluationMethod, _) => Evaluator
    case Single(_, _) => Binder
    case TokenNotAMatch(_, _) => Parser
    case EmptySyntaxForEvaluator => Evaluator
  }

  /** The fixed text before and after the argument of a one-argument
      reporter. */
  function Template(reporter: Reporter): (t: (string, string))
    ensures |t.1| > 0 && t.1[|t.1| - 1] == '.'
  {
    match reporter
    case BadTokenFound => ("Bad Character '", "' Found.")
    case UndeclaredVariable => ("Reference '", "' Has Not Been Declared.")
    case MissingEvaluationMethod => ("Method For Evaluating <", "> Is Missing.")
    case MissingOperatorKind => ("Unexpected Operator Kind <", ">.")
    case CircularDependency => ("Circular Dependency For '", "' Detected.")
    case MissingBindingMethod => ("Method For Binding <", "> Is Missing.")
    case CantUseAsAReference => ("<", "> Can't Be Used As A Reference.")
    case ReferenceCannotBeFound => ("Cannot Find Reference '", "'.")
    case CannotRedeclareReference => ("'", "' Already Exists. Reference Re-Assignments Are Not Allowed.")
    case ValueDoesNotExist => ("Value For '", "' Does Not Exist.")
    case UsedBeforeDeclaration => ("'", "' Reference Used Before Its Declaration.")
  }

  /** The message of each reporter: the argument written verbatim between
      the reporter's fixed prefix and suffix, or one of the two fixed
      shapes; every message ends with a full stop. */
  function Message(r: Report): (m: string)
    ensures r.Single? ==> m == Template(r.reporter).0 + r.argument + Template(r.reporter).1
    ensures |m| > 0 && m[|m| - 1] == '.'
  {
    match r
    case Single(reporter, argument) => Template(reporter).0 + argument + Template(reporter).1
    case TokenNotAMatch(e, f) => "Expected <" + e + ">; Found <" + f + ">."
    case EmptySyntaxForEvaluator => "Syntax Program Cannot Be Empty."
  }

  /** The diagnostic a reporter builds: tagged with the reporter's phase,
      a one-argument message holds the argument verbatim between the
      reporter's prefix and suffix, and every message ends with a full
      stop. */
  function Diagnosis(r: Report): (d: Diagnose)
    ensures d.kind == PhaseOf(r)
    ensures r.Single? ==> d.message == Template(r.reporter).0 + r.argument + Template(r.reporter).1
    ensures |d.message| > 0 && d.message[|d.message| - 1] == '.'
  {
    Diagnose(PhaseOf(r), Message(r))
  }

  /** The argument can be read back from the message: it is what lies
      between the reporter's prefix and suffix. */
  lemma ArgumentRecoverable(reporter: Reporter, argument: string)
    ensures var (prefix, suffix) := Template(reporter);
      var m := Message(Single(reporter, argument));
      |prefix| + |suffix| <= |m| && m[|prefix|..|m| - |suffix|] == argument
  {
    var (prefix, suffix) := Template(reporter);
    var m := Message(Single(reporter, argument));
    assert m == prefix + argument + suffix;
    assert m[|prefix|..|m| - |suffix|] == argument by {
      forall i | 0 <= i < |argument|
        ensures m[|prefix| + i] == argument[i]
      {
      }
    }
  }

  /** Two reports of the same one-argument reporter with the same message
      are the same report: the message keeps the argument verbatim. */
  lemma MessageDeterminesArgument(reporter: Reporter, a1: string, a2: string)
    requires Message(Single(reporter, a1)) == Message(Single(reporter, a2))
    ensures a1 == a2
  {
    ArgumentRecoverable(reporter, a1);
    ArgumentRecoverable(reporter, a2);
  }

  /** `DiagnosticBag`. */
  class DiagnosticBag {
    /** `Stack`: the diagnostics in the order reported. */
    var stack: seq<Diagnose>

    constructor ()
      ensures stack == []
    {
      stack := [];
    }

    /** `Any`: something has been reported. */
    function Any(): (r: bool)
      reads this
      ensures r <==> stack != []
    {
      |stack| > 0
    }

    /** `Clear`: the stack is emptied. */
    method Clear()
      modifies this
      ensures stack == [] && !Any()
    {
      stack := [];
    }

    /** `ReportError`: `d` is pushed and returned; earlier entries stay as
        they were, in their order. */
    method ReportError(d: Diagnose) returns (r: Diagnose)
      modifies this
      ensures r == d && stack == old(stack) + [d]
      ensures Any() && stack[|stack| - 1] == d && old(stack) <= stack
    {
      stack := stack + [d];
      r := d;
    }

    /** Each reporter: builds its diagnostic and reports it with
        `ReportError`. */
    method Report(report: Report) returns (r: Diagnose)
      modifies this
      ensures r == Diagnosis(report) && stack == old(stack) + [r]
    {
      r := ReportError(Diagnose(PhaseOf(report), Message(report)));
    }
  }
}
