/** Which stored values the conditions of a list request select: what each operator means, and
    for which values the ones that build regular expressions mean what they say. */
module LookupMeaning {
  import opened Common
  import opened Texts
  import opened Lookups

  /** What a document has under a field. */
  datatype Stored = Missing | Null | Text(text: string)

  /** How letters are compared when case is ignored. */
  type Fold = char -> char

  function Plainly(): Fold { (c: char) => c }

  // ---- Regular expressions ----

  /** Pattern character `p`, on its own, stands for `c`. */
  predicate Single(p: char, c: char, fold: Fold) {
    if p == '.' then c != '\n' else fold(p) == fold(c)
  }

  /** The end of a text, or the place before a final newline. */
  predicate AtEnd(t: string) {
    t == "" || t == "\n"
  }

  /** A beginning of `t` matches; `re` consists of plain characters, dots, stars after one
      character, and a dollar at the end. */
  predicate MatchHere(re: string, t: string, fold: Fold)
    decreases |re|, |t|
  {
    if re == "" then true
    else if |re| > 1 && re[1] == '*' then MatchStar(re[0], re[2..], t, fold)
    else if re == "$" then AtEnd(t)
    else t != "" && Single(re[0], t[0], fold) && MatchHere(re[1..], t[1..], fold)
  }

  predicate MatchStar(p: char, re: string, t: string, fold: Fold)
    decreases |re| + 1, |t|
  {
    MatchHere(re, t, fold) || (t != "" && Single(p, t[0], fold) && MatchStar(p, re, t[1..], fold))
  }

  /** Some place of `t` matches, or the beginning if the pattern says so. */
  predicate Search(re: string, t: string, fold: Fold) {
    if re != "" && re[0] == '^' then MatchHere(re[1..], t, fold)
    else exists i :: 0 <= i <= |t| && MatchHere(re, t[i..], fold)
  }

  // ---- What a condition selects ----

  predicate Less(a: string, b: string) {
    if b == "" then false
    else if a == "" then true
    else a[0] < b[0] || (a[0] == b[0] && Less(a[1..], b[1..]))
  }

  predicate Selects(c: Condition, stored: Stored, fold: Fold) {
    match c
    case Given(text) => stored == Text(text)
    case Regex(pattern, options) => stored.Text? && Search(pattern, stored.text, if options == "i" then fold else Plainly())
    case Compare(operator, value) =>
      if operator == "$ne" then stored != Text(value)
      else
        && stored.Text?
        && ((operator in {"$lt", "$lte"} && Less(stored.text, value))
            || (operator in {"$gt", "$gte"} && Less(value, stored.text))
            || (operator in {"$lte", "$gte", "$eq"} && stored.text == value))
    case OneOf(values) => stored.Text? && stored.text in values
    case NullOrMissing(_) => !stored.Text?
  }

  // ---- What each operator promises ----

  predicate Same(a: string, b: string, fold: Fold) {
    |a| == |b| && forall i :: 0 <= i < |a| ==> fold(a[i]) == fold(b[i])
  }

  /** `v` stands in `t` from place `i` on. */
  predicate StandsAt(v: string, t: string, i: int, fold: Fold) {
    0 <= i && i + |v| <= |t| && Same(t[i..i + |v|], v, fold)
  }

  /** Equal, but for a final newline. */
  predicate Equals(v: string, t: string, fold: Fold) {
    StandsAt(v, t, 0, fold) && AtEnd(t[|v|..])
  }

  predicate StartsWith(v: string, t: string, fold: Fold) {
    StandsAt(v, t, 0, fold)
  }

  /** But for a final newline. */
  ghost predicate EndsWith(v: string, t: string, fold: Fold) {
    exists i :: StandsAt(v, t, i, fold) && AtEnd(t[i + |v|..])
  }

  ghost predicate Includes(v: string, t: string, fold: Fold) {
    exists i :: StandsAt(v, t, i, fold)
  }

  /** The operators as they appear in a request, the weakest first. */
  const KEYS: seq<string> :=
    ["__exact", "__iexact", "__contains", "__icontains", "__startswith", "__istartswith", "__endswith", "__iendswith",
     "__gt", "__lt", "__lte", "__isnull", "__in", "__eq", "__ne", "__gte"]

  /** What the `n`-th of them promises for value `v`. */
  ghost predicate Promised(n: nat, v: string, stored: Stored, fold: Fold) {
    match n
    case 0 => stored.Text? && Equals(v, stored.text, Plainly())
    case 1 => stored.Text? && Equals(v, stored.text, fold)
    case 2 => stored.Text? && Includes(v, stored.text, Plainly())
    case 3 => stored.Text? && Includes(v, stored.text, fold)
    case 4 => stored.Text? && StartsWith(v, stored.text, Plainly())
    case 5 => stored.Text? && StartsWith(v, stored.text, fold)
    case 6 => stored.Text? && EndsWith(v, stored.text, Plainly())
    case 7 => stored.Text? && EndsWith(v, stored.text, fold)
    case 8 => stored.Text? && Less(v, stored.text)
    case 9 => stored.Text? && Less(stored.text, v)
    case 10 => stored.Text? && (Less(stored.text, v) || stored.text == v)
    case 11 => stored == Missing || stored == Null
    case 12 => stored.Text? && Listed(v, stored.text)
    case 13 => stored == Text(v)
    case 14 => stored != Text(v)
    case _ => stored.Text? && (Less(v, stored.text) || stored.text == v)
  }

  // ---- Values in patterns ----

  /** Neither a dot nor a star, nor anything else that a pattern gives a meaning to. */
  predicate Literal(v: string) {
    forall c :: c in v ==> c !in "\\^$.|?*+()[]{}"
  }

  /** Of the special characters only dots, and stars that follow another character. */
  predicate Simple(v: string) {
    && (forall c :: c in v ==> c !in "\\^$|?+()[]{}")
    && (v != "" ==> v[0] != '*')
    && (forall i, j :: 0 <= i < |v| && 0 <= j < |v| && j == i + 1 && v[j] == '*' ==> v[i] != '*')
  }

  predicate NoStar(rest: string) {
    rest == "" || rest[0] != '*'
  }

  /** A literal value in a pattern matches itself. */
  lemma {:induction false} LiteralMatches(v: string, rest: string, t: string, fold: Fold)
    requires Literal(v) && NoStar(rest)
    ensures MatchHere(v + rest, t, fold) <==> StandsAt(v, t, 0, fold) && MatchHere(rest, t[|v|..], fold)
    decreases |v|
  {
    if v == "" {
      assert v + rest == rest && t[0..] == t;
    } else {
      var re := v + rest;
      assert re[0] == v[0] && v[0] in v && re[1..] == v[1..] + rest;
      assert |re| > 1 ==> re[1] == if |v| > 1 then v[1] else rest[0];
      assert |v| > 1 ==> v[1] in v;
      if t != "" {
        LiteralMatches(v[1..], rest, t[1..], fold);
        SplitSame(v, t, fold);
        assert |v| <= |t| ==> t[1..][|v| - 1..] == t[|v|..];
      }
    }
  }

  lemma SplitSame(v: string, t: string, fold: Fold)
    requires v != "" && t != ""
    ensures StandsAt(v, t, 0, fold) <==> fold(v[0]) == fold(t[0]) && StandsAt(v[1..], t[1..], 0, fold)
  {
    if |v| <= |t| {
      var a, b := t[0..|v|], t[1..][0..|v| - 1];
      assert forall i :: 0 <= i < |b| ==> b[i] == a[i + 1] && v[1..][i] == v[i + 1];
      if Same(b, v[1..], fold) && fold(v[0]) == fold(t[0]) {
        forall i | 0 <= i < |a|
          ensures fold(a[i]) == fold(v[i])
        {
          assert i > 0 ==> a[i] == b[i - 1] && v[i] == v[1..][i - 1];
        }
      }
    }
  }

  lemma Shifted(v: string, t: string, i: int, fold: Fold)
    requires 0 <= i <= |t|
    ensures StandsAt(v, t[i..], 0, fold) <==> StandsAt(v, t, i, fold)
    ensures i + |v| <= |t| ==> t[i..][|v|..] == t[i + |v|..]
  {
    if i + |v| <= |t| {
      assert t[i..][0..|v|] == t[i..i + |v|];
    }
  }

  lemma PatternStarts(v: string, rest: string)
    requires Simple(v) && (rest == "$" || rest == "")
    ensures v + rest != "" ==> (v + rest)[0] != '^'
  {
    assert v != "" ==> v[0] in v;
  }

  lemma LiteralIsSimple(v: string)
    requires Literal(v)
    ensures Simple(v)
  {
    assert forall i :: 0 <= i < |v| ==> v[i] in v;
  }

  lemma LiteralExact(v: string, t: string, fold: Fold)
    requires Literal(v)
    ensures Search("^" + v + "$", t, fold) <==> Equals(v, t, fold)
  {
    LiteralMatches(v, "$", t, fold);
    assert ("^" + v + "$")[1..] == v + "$";
  }

  lemma LiteralStart(v: string, t: string, fold: Fold)
    requires Literal(v)
    ensures Search("^" + v, t, fold) <==> StartsWith(v, t, fold)
  {
    LiteralMatches(v, "", t, fold);
    assert ("^" + v)[1..] == v + "";
  }

  lemma LiteralEnd(v: string, t: string, fold: Fold)
    requires Literal(v)
    ensures Search(v + "$", t, fold) <==> EndsWith(v, t, fold)
  {
    LiteralIsSimple(v);
    PatternStarts(v, "$");
    if Search(v + "$", t, fold) {
      var i :| 0 <= i <= |t| && MatchHere(v + "$", t[i..], fold);
      EndAt(v, t, i, fold);
    }
    if EndsWith(v, t, fold) {
      var i :| StandsAt(v, t, i, fold) && AtEnd(t[i + |v|..]);
      EndAt(v, t, i, fold);
    }
  }

  lemma EndAt(v: string, t: string, i: nat, fold: Fold)
    requires Literal(v) && i <= |t|
    ensures MatchHere(v + "$", t[i..], fold) <==> StandsAt(v, t, i, fold) && AtEnd(t[i + |v|..])
  {
    LiteralMatches(v, "$", t[i..], fold);
    Shifted(v, t, i, fold);
    if i + |v| <= |t| {
      DollarIsEnd(t[i..][|v|..], fold);
    }
  }

  lemma DollarIsEnd(t: string, fold: Fold)
    ensures MatchHere("$", t, fold) <==> AtEnd(t)
  {
  }

  /** A star after a dot leaves the rest to match at some later place. */
  lemma {:induction false} AfterStar(re: string, t: string, fold: Fold)
    ensures MatchHere(re, t, fold) ==> MatchStar('.', re, t, fold)
    ensures MatchStar('.', re, t, fold) ==> exists i :: 0 <= i <= |t| && MatchHere(re, t[i..], fold)
    decreases |t|
  {
    if MatchHere(re, t, fold) {
      assert t[0..] == t;
    } else if t != "" {
      AfterStar(re, t[1..], fold);
      if MatchStar('.', re, t, fold) {
        var i :| 0 <= i <= |t[1..]| && MatchHere(re, t[1..][i..], fold);
        assert t[1..][i..] == t[i + 1..];
      }
    }
  }

  lemma StarMatches(t: string, fold: Fold)
    ensures MatchHere(".*", t, fold)
  {
    assert ".*"[2..] == "";
    assert MatchHere("", t, fold);
  }

  /** Between two dots with stars the value may be anywhere. */
  lemma Within(v: string, t: string, fold: Fold)
    ensures Search(".*" + v + ".*", t, fold) <==> exists i :: 0 <= i <= |t| && MatchHere(v + ".*", t[i..], fold)
  {
    var re := ".*" + v + ".*";
    assert re[2..] == v + ".*";
    forall i | 0 <= i <= |t|
      ensures MatchHere(re, t[i..], fold) <==> MatchStar('.', v + ".*", t[i..], fold)
      ensures MatchHere(v + ".*", t[i..], fold) ==> MatchHere(re, t[i..], fold)
      ensures MatchHere(re, t[i..], fold) ==> exists k :: 0 <= k <= |t| && MatchHere(v + ".*", t[k..], fold)
    {
      AfterStar(v + ".*", t[i..], fold);
      if MatchHere(re, t[i..], fold) {
        var k :| 0 <= k <= |t[i..]| && MatchHere(v + ".*", t[i..][k..], fold);
        assert t[i..][k..] == t[i + k..];
      }
    }
  }

  lemma LiteralWithin(v: string, t: string, fold: Fold)
    requires Literal(v)
    ensures Search(".*" + v + ".*", t, fold) <==> Includes(v, t, fold)
  {
    Within(v, t, fold);
    forall i | 0 <= i <= |t|
      ensures MatchHere(v + ".*", t[i..], fold) <==> StandsAt(v, t, i, fold)
    {
      LiteralMatches(v, ".*", t[i..], fold);
      Shifted(v, t, i, fold);
      if i + |v| <= |t| {
        StarMatches(t[i..][|v|..], fold);
      }
    }
  }

  // ---- Values that are not literal ----

  /** A text that a pattern matches: no repetition, and an "a" for every dot. */
  function Sample(v: string): string {
    if v == "" then ""
    else if |v| > 1 && v[1] == '*' then Sample(v[2..])
    else [if v[0] == '.' then 'a' else v[0]] + Sample(v[1..])
  }

  lemma SimpleRest(v: string)
    requires Simple(v) && v != ""
    ensures if |v| > 1 && v[1] == '*' then Simple(v[2..]) else Simple(v[1..])
  {
    assert forall c, i: int :: 0 <= i <= |v| && c in v[i..] ==> c in v;
    assert forall i :: 0 <= i < |v| - 1 ==> v[1..][i] == v[i + 1];
    assert |v| > 1 ==> forall i :: 0 <= i < |v| - 2 ==> v[2..][i] == v[i + 2];
  }

  lemma {:induction false} SampleMatches(v: string, rest: string, u: string, fold: Fold)
    requires Simple(v) && NoStar(rest) && MatchHere(rest, u, fold)
    ensures MatchHere(v + rest, Sample(v) + u, fold)
    decreases |v|
  {
    hide MatchHere, Simple, Sample, NoStar;
    SampleUnfolds(v, rest, u);
    if v == "" {
      assert v + rest == rest && Sample(v) + u == u;
    } else {
      SimpleRest(v);
      if |v| > 1 && v[1] == '*' {
        SampleMatches(v[2..], rest, u, fold);
        StarIsLeftOut(v + rest, v[2..] + rest, Sample(v) + u, fold);
      } else {
        SampleMatches(v[1..], rest, u, fold);
        OneIsMatched(v + rest, v[1..] + rest, Sample(v) + u, Sample(v[1..]) + u, fold);
      }
    }
  }

  lemma SampleUnfolds(v: string, rest: string, u: string)
    requires Simple(v) && NoStar(rest)
    ensures if v == "" then Sample(v) == ""
            else if |v| > 1 && v[1] == '*' then (v + rest)[2..] == v[2..] + rest && Sample(v) == Sample(v[2..])
            else && (v + rest)[1..] == v[1..] + rest && NoStar(v[1..] + rest) && v[0] != '$'
                 && Sample(v) + u == [if v[0] == '.' then 'a' else v[0]] + (Sample(v[1..]) + u)
  {
    if v != "" {
      hide Simple;
      if |v| > 1 && v[1] == '*' {
        TailTwo(v, rest);
      } else {
        TailOne(v, rest);
        FirstIsPlain(v);
        Regroup([if v[0] == '.' then 'a' else v[0]], Sample(v[1..]), u);
      }
    }
  }

  lemma Regroup(a: string, b: string, c: string)
    ensures (a + b) + c == a + (b + c)
  {
  }

  lemma TailTwo(v: string, rest: string)
    requires |v| > 1
    ensures (v + rest)[2..] == v[2..] + rest
  {
  }

  lemma TailOne(v: string, rest: string)
    requires v != "" && NoStar(rest) && !(|v| > 1 && v[1] == '*')
    ensures (v + rest)[1..] == v[1..] + rest && NoStar(v[1..] + rest)
  {
    assert v[1..] + rest != "" ==> (v[1..] + rest)[0] == if |v| > 1 then v[1] else rest[0];
  }

  lemma FirstIsPlain(v: string)
    requires Simple(v) && v != ""
    ensures v[0] != '$'
  {
    assert v[0] in v;
  }

  lemma StarIsLeftOut(re: string, tail: string, t: string, fold: Fold)
    requires |re| > 1 && re[1] == '*' && re[2..] == tail && MatchHere(tail, t, fold)
    ensures MatchHere(re, t, fold)
  {
  }

  lemma OneIsMatched(re: string, tail: string, t: string, later: string, fold: Fold)
    requires re != "" && re[1..] == tail && t != "" && t[1..] == later && NoStar(tail) && re[0] != '$'
    requires t[0] == (if re[0] == '.' then 'a' else re[0]) && MatchHere(tail, later, fold)
    ensures MatchHere(re, t, fold)
  {
  }

  /** It is shorter than the pattern, or differs from it in the dots. */
  lemma {:induction false} SampleIs(v: string)
    requires Simple(v)
    ensures |Sample(v)| < |v|
            || (|Sample(v)| == |v|
                && forall i :: 0 <= i < |v| ==> v[i] != '*' && Sample(v)[i] == if v[i] == '.' then 'a' else v[i])
    decreases |v|
  {
    if v != "" {
      SimpleRest(v);
      if |v| > 1 && v[1] == '*' {
        SampleIs(v[2..]);
      } else {
        SampleIs(v[1..]);
        assert v[0] != '*';
        assert forall i :: 1 <= i < |v| ==> v[i] == v[1..][i - 1];
      }
    }
  }

  /** Only letters can be equal to others when case is ignored. */
  ghost predicate IgnoresCase(fold: Fold) {
    fold('.') != fold('a')
  }

  lemma SampleIsElsewhere(v: string, i: int, fold: Fold)
    requires Simple(v) && !Literal(v) && IgnoresCase(fold)
    ensures !StandsAt(v, Sample(v), i, fold)
  {
    SampleIs(v);
    if |Sample(v)| == |v| && i == 0 {
      var c :| c in v && c in "\\^$.|?*+()[]{}";
      var k :| 0 <= k < |v| && v[k] == c;
      assert c == '.' && Sample(v)[0..|v|][k] == 'a';
    }
  }

  lemma SampleIsFound(v: string, fold: Fold)
    requires Simple(v)
    ensures Search("^" + v + "$", Sample(v), fold) && Search("^" + v, Sample(v), fold)
    ensures Search(v + "$", Sample(v), fold) && Search(".*" + v + ".*", Sample(v), fold)
  {
    var t := Sample(v);
    assert t + "" == t && t[0..] == t;
    SampleMatches(v, "$", "", fold);
    SampleMatches(v, "", "", fold);
    assert ("^" + v + "$")[1..] == v + "$" && ("^" + v)[1..] == v + "";
    PatternStarts(v, "$");
    StarMatches("", fold);
    SampleMatches(v, ".*", "", fold);
    Within(v, t, fold);
  }

  // ---- The operators ----

  ghost predicate Means(n: nat, v: string, c: Condition, fold: Fold) {
    forall stored :: Selects(c, stored, fold) <==> Promised(n, v, stored, fold)
  }

  /** The pattern of one of the eight operators. */
  function PatternOf(n: nat, v: string): string {
    match n / 2
    case 0 => "^" + v + "$"
    case 1 => ".*" + v + ".*"
    case 2 => "^" + v
    case _ => v + "$"
  }

  lemma PatternMeans(n: nat, v: string, fold: Fold)
    requires n < 8 && Simple(v) && IgnoresCase(fold)
    ensures Means(n, v, Regex(PatternOf(n, v), if n % 2 == 1 then "i" else ""), fold) <==> Literal(v)
  {
    hide Search, Literal, Simple;
    var c := Regex(PatternOf(n, v), if n % 2 == 1 then "i" else "");
    var f := if n % 2 == 1 then fold else Plainly();
    if Literal(v) {
      forall stored
        ensures Selects(c, stored, fold) <==> Promised(n, v, stored, fold)
      {
        if stored.Text? {
          LiteralPattern(n, v, stored.text, f);
        }
      }
    } else {
      SampleIsFound(v, f);
      forall i
        ensures !StandsAt(v, Sample(v), i, f)
      {
        SampleIsElsewhere(v, i, f);
      }
      assert Selects(c, Text(Sample(v)), fold) && !Promised(n, v, Text(Sample(v)), fold);
    }
  }

  lemma LiteralPattern(n: nat, v: string, t: string, f: Fold)
    requires n < 8 && Literal(v)
    ensures Search(PatternOf(n, v), t, f)
            <==> match n / 2
                 case 0 => Equals(v, t, f)
                 case 1 => Includes(v, t, f)
                 case 2 => StartsWith(v, t, f)
                 case _ => EndsWith(v, t, f)
  {
    LiteralExact(v, t, f);
    LiteralWithin(v, t, f);
    LiteralStart(v, t, f);
    LiteralEnd(v, t, f);
  }

  // ---- After the lookups ----

  /** The operator at a place of the list, with its condition. */
  lemma OperatorAt(n: nat, field: string, v: string) returns (op: Op)
    requires n < 16
    ensures Rank(op) == n && Suffix(op) == KEYS[n]
    ensures n < 8 ==> ConditionOf(op, field, v) == Regex(PatternOf(n, v), if n % 2 == 1 then "i" else "")
    ensures n >= 8 ==> forall fold :: Means(n, v, ConditionOf(op, field, v), fold)
  {
    match n
    case 0 => op := Exact;
    case 1 => op := IExact;
    case 2 => op := Contains;
    case 3 => op := IContains;
    case 4 => op := Startswith;
    case 5 => op := IStartswith;
    case 6 => op := Endswith;
    case 7 => op := IEndswith;
    case 8 => op := Gt;
    case 9 => op := Lt;
    case 10 => op := Lte;
    case 11 => op := IsNull;
    case 12 =>
      op := In;
      forall t
        ensures t in SplitCommas(v) <==> Listed(v, t)
      {
        ListIs(v, t);
      }
    case 13 => op := Eq;
    case 14 => op := Ne;
    case 15 => op := Gte;
  }

  /** The request has values under the key, the last of which is `v`. */
  predicate Asks(form: Form, key: string, v: string) {
    key in form && form[key] != [] && form[key][|form[key]|-1] == v
  }

  predicate Unused(form: Form, key: string) {
    key in form ==> form[key] == []
  }

  lemma OnlyWins(form: Form, f: string, n: nat, v: string, op: Op)
    requires n < 16 && Rank(op) == n && Suffix(op) == KEYS[n]
    requires Asks(form, f + KEYS[n], v) && forall m :: n < m < 16 ==> Unused(form, f + KEYS[m])
    ensures Wins(form, f, op) && LastValue(form, f, op) == v
  {
    forall other | Uses(form, f, other)
      ensures Rank(other) <= n
    {
      if Rank(other) > n {
        assert Unused(form, f + KEYS[Rank(other)]);
        KeyIs(other);
      }
    }
  }

  lemma KeyIs(op: Op)
    ensures Rank(op) < 16 && Suffix(op) == KEYS[Rank(op)]
  {
  }

  /** After the lookups a listed field has a condition that selects exactly what its strongest
      operator promises for its last value; for an operator that builds a regular expression,
      exactly if the value is literal. */
  lemma LookupsMean(form: Form, fields: seq<string>, before: map<string, Condition>, after: map<string, Condition>,
                    f: string, n: nat, v: string, fold: Fold)
    requires LookedUp(form, fields, before, after) && f in fields && n < 16
    requires Asks(form, f + KEYS[n], v) && forall m :: n < m < 16 ==> Unused(form, f + KEYS[m])
    requires (n < 8 ==> Simple(v)) && IgnoresCase(fold)
    ensures f in after
    ensures (forall stored :: Selects(after[f], stored, fold) <==> Promised(n, v, stored, fold)) <==> n >= 8 || Literal(v)
  {
    hide ConditionOf, Selects, Promised, Simple, Literal, Wins;
    var op := OperatorAt(n, f, v);
    OnlyWins(form, f, n, v, op);
    assert Entry(after, f) == Some(ConditionOf(op, f, v));
    if n < 8 {
      PatternMeans(n, v, fold);
    }
    assert Means(n, v, after[f], fold) <==> n >= 8 || Literal(v);
  }

  /** `Match` selects the documents whose field is the value. */
  lemma MatchMeans(url: Form, fields: seq<string>, before: map<string, Condition>, after: map<string, Condition>,
                   f: string, stored: Stored, fold: Fold)
    requires Matched(url, fields, before, after) && f in fields
    requires f in url && url[f] != [] && url[f][0] != ""
    ensures f in after && (Selects(after[f], stored, fold) <==> stored == Text(url[f][0]))
  {
    assert Entry(after, f) == Some(Given(url[f][0]));
  }
}
