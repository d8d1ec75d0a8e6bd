/** The field lookups of a list request: seventeen passes over one query map. */
module Lookups {
  import opened Common
  import opened Texts

  /** The parsed form of the request. */
  type Form = map<string, seq<string>>

  datatype Condition =
    | Given(text: string)
    | Regex(pattern: string, options: string)
    | Compare(operator: string, value: string)
    | OneOf(values: seq<string>)
    | NullOrMissing(field: string)

  datatype Op =
    | Exact | IExact | Contains | IContains | Startswith | IStartswith | Endswith | IEndswith
    | Gt | Gte | Lt | Lte | IsNull | In | Eq | Ne

  function Suffix(op: Op): string {
    match op
    case Exact => "__exact" case IExact => "__iexact"
    case Contains => "__contains" case IContains => "__icontains"
    case Startswith => "__startswith" case IStartswith => "__istartswith"
    case Endswith => "__endswith" case IEndswith => "__iendswith"
    case Gt => "__gt" case Gte => "__gte" case Lt => "__lt" case Lte => "__lte"
    case IsNull => "__isnull" case In => "__in" case Eq => "__eq" case Ne => "__ne"
  }

  function ConditionOf(op: Op, field: string, value: string): Condition {
    match op
    case Exact => Regex("^" + value + "$", "")
    case IExact => Regex("^" + value + "$", "i")
    case Contains => Regex(".*" + value + ".*", "")
    case IContains => Regex(".*" + value + ".*", "i")
    case Startswith => Regex("^" + value, "")
    case IStartswith => Regex("^" + value, "i")
    case Endswith => Regex(value + "$", "")
    case IEndswith => Regex(value + "$", "i")
    case Gt => Compare("$gt", value)
    case Gte => Compare("$gte", value)
    case Lt => Compare("$lt", value)
    case Lte => Compare("$lte", value)
    case IsNull => NullOrMissing(field)
    case In => OneOf(SplitCommas(value))
    case Eq => Compare("$eq", value)
    case Ne => Compare("$ne", value)
  }

  function Values(form: Form, field: string, op: Op): seq<string> {
    var key := field + Suffix(op);
    if key in form then form[key] else []
  }

  /** Whether the request uses an operator on a field. */
  predicate Uses(form: Form, field: string, op: Op) {
    Values(form, field, op) != []
  }

  function LastValue(form: Form, field: string, op: Op): string
    requires Uses(form, field, op)
  {
    Values(form, field, op)[|Values(form, field, op)| - 1]
  }

  // ---- The specification: one look at each field ----

  /** Which operator wins when a field has several. */
  function Rank(op: Op): nat {
    match op
    case Exact => 0 case IExact => 1 case Contains => 2 case IContains => 3
    case Startswith => 4 case IStartswith => 5 case Endswith => 6 case IEndswith => 7
    case Gt => 8 case Lt => 9 case Lte => 10 case IsNull => 11
    case In => 12 case Eq => 13 case Ne => 14 case Gte => 15
  }

  ghost predicate Wins(form: Form, field: string, op: Op) {
    Uses(form, field, op) && forall other :: Uses(form, field, other) ==> Rank(other) <= Rank(op)
  }

  function Entry(query: map<string, Condition>, key: string): Option<Condition> {
    if key in query then Some(query[key]) else None
  }

  /** Whether `after` is what the lookups make of `before`: a listed field gets the condition
      of the winning operator with its last value, and every other entry is kept. */
  ghost predicate LookedUp(form: Form, fields: seq<string>, before: map<string, Condition>, after: map<string, Condition>) {
    && (forall key, op :: key in fields && Wins(form, key, op) ==>
          Entry(after, key) == Some(ConditionOf(op, key, LastValue(form, key, op))))
    && (forall key :: key !in fields || (forall op :: !Uses(form, key, op)) ==> Entry(after, key) == Entry(before, key))
  }

  /** Some operator wins whenever one is used. */
  lemma SomeoneWins(form: Form, field: string, op: Op)
    requires Uses(form, field, op)
    ensures exists winner :: Wins(form, field, winner)
    decreases 15 - Rank(op)
  {
    if other :| Uses(form, field, other) && Rank(other) > Rank(op) {
      SomeoneWins(form, field, other);
    } else {
      assert Wins(form, field, op);
    }
  }

  lemma OneWinner(form: Form, field: string, a: Op, b: Op)
    requires Wins(form, field, a) && Wins(form, field, b)
    ensures a == b
  {
    assert Rank(a) == Rank(b);
  }

  /** The specification determines the result. */
  lemma Determined(form: Form, fields: seq<string>, before: map<string, Condition>,
                   a: map<string, Condition>, b: map<string, Condition>)
    requires LookedUp(form, fields, before, a) && LookedUp(form, fields, before, b)
    ensures a == b
  {
    forall key
      ensures Entry(a, key) == Entry(b, key)
    {
      if key in fields && exists op :: Uses(form, key, op) {
        var op :| Uses(form, key, op);
        SomeoneWins(form, key, op);
      }
    }
    SameEntries(a, b);
  }

  lemma SameEntries(a: map<string, Condition>, b: map<string, Condition>)
    requires forall key :: Entry(a, key) == Entry(b, key)
    ensures a == b
  {
    forall key
      ensures key in a <==> key in b
      ensures key in a ==> a[key] == b[key]
    {
      assert Entry(a, key) == Entry(b, key);
    }
  }

  /** The order and the repetition of the fields do not matter. */
  lemma FieldOrder(form: Form, fields: seq<string>, others: seq<string>, before: map<string, Condition>,
                   a: map<string, Condition>, b: map<string, Condition>)
    requires forall key :: key in fields <==> key in others
    requires LookedUp(form, fields, before, a) && LookedUp(form, others, before, b)
    ensures a == b
  {
    assert LookedUp(form, fields, before, b);
    Determined(form, fields, before, a, b);
  }

  /** A second application changes nothing. */
  lemma Idempotent(form: Form, fields: seq<string>, before: map<string, Condition>,
                   once: map<string, Condition>, twice: map<string, Condition>)
    requires LookedUp(form, fields, before, once) && LookedUp(form, fields, once, twice)
    ensures twice == once
  {
    assert LookedUp(form, fields, once, once);
    Determined(form, fields, once, once, twice);
  }

  /** The lookups of two lists of fields that share none can be made in either order. */
  lemma DisjointFields(form: Form, fields: seq<string>, others: seq<string>, before: map<string, Condition>,
                       a1: map<string, Condition>, a2: map<string, Condition>,
                       b1: map<string, Condition>, b2: map<string, Condition>)
    requires forall key :: !(key in fields && key in others)
    requires LookedUp(form, fields, before, a1) && LookedUp(form, others, a1, a2)
    requires LookedUp(form, others, before, b1) && LookedUp(form, fields, b1, b2)
    ensures a2 == b2
  {
    assert LookedUp(form, fields + others, before, a2);
    assert LookedUp(form, fields + others, before, b2);
    Determined(form, fields + others, before, a2, b2);
  }

  // ---- The passes ----

  /** The operators of the passes, in order; the last one repeats an earlier one. */
  function PassAt(n: nat): Op {
    match n
    case 0 => Exact case 1 => IExact case 2 => Contains case 3 => IContains
    case 4 => Startswith case 5 => IStartswith case 6 => Endswith case 7 => IEndswith
    case 8 => Gt case 9 => Gte case 10 => Lt case 11 => Lte
    case 12 => IsNull case 13 => In case 14 => Eq case 15 => Ne case _ => Gte
  }

  /** The place of an operator's last pass. */
  function LastPass(op: Op): (n: nat)
    ensures n < 17 && PassAt(n) == op
    ensures forall i: nat :: n < i < 17 ==> Rank(PassAt(i)) > Rank(op)
  {
    match op
    case Exact => 0 case IExact => 1 case Contains => 2 case IContains => 3
    case Startswith => 4 case IStartswith => 5 case Endswith => 6 case IEndswith => 7
    case Gt => 8 case Lt => 10 case Lte => 11 case IsNull => 12
    case In => 13 case Eq => 14 case Ne => 15 case Gte => 16
  }

  /** What the first `n` passes make of one key. */
  function Passed(form: Form, fields: seq<string>, before: map<string, Condition>, n: nat, key: string): Option<Condition> {
    if n == 0 then Entry(before, key)
    else
      var op := PassAt(n - 1);
      if key in fields && Uses(form, key, op) then Some(ConditionOf(op, key, LastValue(form, key, op)))
      else Passed(form, fields, before, n - 1, key)
  }

  /** Whether `after` is what the first `n` passes make of `before`. */
  ghost predicate AfterPasses(form: Form, fields: seq<string>, before: map<string, Condition>, n: nat, after: map<string, Condition>) {
    forall key :: Entry(after, key) == Passed(form, fields, before, n, key)
  }

  /** The last pass that uses the field decides. */
  lemma {:induction false} LastPassDecides(form: Form, fields: seq<string>, before: map<string, Condition>,
                                           m: nat, n: nat, key: string)
    requires m < n && key in fields && Uses(form, key, PassAt(m))
    requires forall i: nat :: m < i < n ==> !Uses(form, key, PassAt(i))
    ensures Passed(form, fields, before, n, key) == Some(ConditionOf(PassAt(m), key, LastValue(form, key, PassAt(m))))
    decreases n
  {
    hide ConditionOf, PassAt, Uses, LastValue;
    if m < n - 1 {
      LastPassDecides(form, fields, before, m, n - 1, key);
    }
  }

  lemma {:induction false} NoPassTouches(form: Form, fields: seq<string>, before: map<string, Condition>, n: nat, key: string)
    requires key !in fields || forall op :: !Uses(form, key, op)
    ensures Passed(form, fields, before, n, key) == Entry(before, key)
  {
    if n > 0 {
      NoPassTouches(form, fields, before, n - 1, key);
    }
  }

  lemma NothingPassed(form: Form, fields: seq<string>, before: map<string, Condition>)
    ensures AfterPasses(form, fields, before, 0, before)
  {
  }

  /** What one pass makes of a query. */
  ghost predicate OnePass(form: Form, fields: seq<string>, op: Op, before: map<string, Condition>, after: map<string, Condition>) {
    forall key :: Entry(after, key)
                  == if key in fields && Uses(form, key, op) then Some(ConditionOf(op, key, LastValue(form, key, op)))
                     else Entry(before, key)
  }

  lemma PassAdds(form: Form, fields: seq<string>, first: map<string, Condition>, n: nat,
                 before: map<string, Condition>, after: map<string, Condition>)
    requires AfterPasses(form, fields, first, n, before) && OnePass(form, fields, PassAt(n), before, after)
    ensures AfterPasses(form, fields, first, n + 1, after)
  {
    forall key
      ensures Entry(after, key) == Passed(form, fields, first, n + 1, key)
    {
      assert Entry(before, key) == Passed(form, fields, first, n, key);
    }
  }

  /** `context.Query`: the first value of a URL parameter, empty if there is none. */
  function FirstValue(url: Form, key: string): string {
    if key in url && url[key] != [] then url[key][0] else ""
  }

  /** What `Match` makes of a query: an equality for every listed field the URL names. */
  ghost predicate Matched(url: Form, fields: seq<string>, before: map<string, Condition>, after: map<string, Condition>) {
    forall key :: Entry(after, key)
                  == if key in fields && FirstValue(url, key) != "" then Some(Given(FirstValue(url, key))) else Entry(before, key)
  }

  /** A list request makes `Match` first: a field it matched keeps that condition unless the
      lookups have one for it. */
  lemma LookupsAfterMatch(url: Form, form: Form, matched: seq<string>, fields: seq<string>,
                          before: map<string, Condition>, middle: map<string, Condition>, after: map<string, Condition>, key: string)
    requires Matched(url, matched, before, middle) && LookedUp(form, fields, middle, after)
    requires key in matched && FirstValue(url, key) != ""
    ensures Entry(after, key) == Some(Given(FirstValue(url, key)))
            <==> key !in fields || forall op :: !Uses(form, key, op)
  {
    if key in fields && exists op :: Uses(form, key, op) {
      var op :| Uses(form, key, op);
      SomeoneWins(form, key, op);
    }
  }

  /** The seventeen passes do what one look at each field does. */
  lemma PassesMeetSpec(form: Form, fields: seq<string>, before: map<string, Condition>, after: map<string, Condition>)
    requires AfterPasses(form, fields, before, 17, after)
    ensures LookedUp(form, fields, before, after)
  {
    forall key, op | key in fields && Wins(form, key, op)
      ensures Entry(after, key) == Some(ConditionOf(op, key, LastValue(form, key, op)))
    {
      LastPassDecides(form, fields, before, LastPass(op), 17, key);
    }
    forall key | key !in fields || forall op :: !Uses(form, key, op)
      ensures Entry(after, key) == Entry(before, key)
    {
      NoPassTouches(form, fields, before, 17, key);
    }
  }

  class Query {
    var conditions: map<string, Condition>

    constructor (given: map<string, Condition>)
      ensures conditions == given
    {
      conditions := given;
    }

    method Match(url: Form, fields: seq<string>)
      modifies this
      ensures Matched(url, fields, old(conditions), conditions)
    {
      var i := 0;
      while i < |fields|
        invariant 0 <= i <= |fields| && Matched(url, fields[..i], old(conditions), conditions)
      {
        var q := FirstValue(url, fields[i]);
        if q != "" {
          conditions := conditions[fields[i] := Given(q)];
        }
        i := i + 1;
      }
      assert fields[..i] == fields;
    }

    /** The inner loop of a pass: the values of one field, each replacing the one before. */
    method SetEach(op: Op, field: string, ar: seq<string>)
      requires |ar| > 0
      modifies this
      ensures conditions == old(conditions)[field := ConditionOf(op, field, ar[|ar|-1])]
    {
      hide ConditionOf;
      var j := 0;
      while j < |ar|
        invariant 0 <= j <= |ar|
        invariant conditions == if j == 0 then old(conditions) else old(conditions)[field := ConditionOf(op, field, ar[j - 1])]
      {
        conditions := conditions[field := ConditionOf(op, field, ar[j])];
        j := j + 1;
      }
    }

    /** One pass, the `n`-th of a run. The sixteen operator methods differ in the suffix and
        in the condition. */
    method Pass(op: Op, form: Form, fields: seq<string>, ghost before: map<string, Condition>, ghost n: nat)
      requires AfterPasses(form, fields, before, n, conditions) && op == PassAt(n)
      modifies this
      ensures OnePass(form, fields, op, old(conditions), conditions)
      ensures AfterPasses(form, fields, before, n + 1, conditions)
    {
      hide ConditionOf, Suffix, AfterPasses;
      var i := 0;
      while i < |fields|
        invariant 0 <= i <= |fields|
        invariant OnePass(form, fields[..i], op, old(conditions), conditions)
      {
        var ic := fields[i] + Suffix(op);
        if ic in form && |form[ic]| > 0 {
          SetEach(op, fields[i], form[ic]);
        }
        i := i + 1;
      }
      assert fields[..i] == fields;
      PassAdds(form, fields, before, n, old(conditions), conditions);
    }

    method Lookups(form: Form, fields: seq<string>)
      modifies this
      ensures LookedUp(form, fields, old(conditions), conditions)
    {
      hide AfterPasses, OnePass;
      ghost var before := conditions;
      NothingPassed(form, fields, before);
      Pass(Exact, form, fields, before, 0);
      Pass(IExact, form, fields, before, 1);
      Pass(Contains, form, fields, before, 2);
      Pass(IContains, form, fields, before, 3);
      Pass(Startswith, form, fields, before, 4);
      Pass(IStartswith, form, fields, before, 5);
      Pass(Endswith, form, fields, before, 6);
      Pass(IEndswith, form, fields, before, 7);
      Pass(Gt, form, fields, before, 8);
      Pass(Gte, form, fields, before, 9);
      Pass(Lt, form, fields, before, 10);
      Pass(Lte, form, fields, before, 11);
      Pass(IsNull, form, fields, before, 12);
      Pass(In, form, fields, before, 13);
      Pass(Eq, form, fields, before, 14);
      Pass(Ne, form, fields, before, 15);
      Pass(Gte, form, fields, before, 16);
      PassesMeetSpec(form, fields, before, conditions);
    }
  }
}
