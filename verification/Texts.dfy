/** Texts that are lists separated by commas. */
module Texts {

  /** `strings.Split` and `split` at commas. */
  function SplitCommas(s: string): (r: seq<string>)
    ensures |r| > 0
  {
    if s == [] then [""]
    else
      var rest := SplitCommas(s[1..]);
      if s[0] == ',' then [""] + rest else [[s[0]] + rest[0]] + rest[1..]
  }

  /** The text stands between two commas, or a comma and an end, of the list. */
  predicate Listed(list: string, t: string) {
    && ',' !in t
    && exists i, j :: 0 <= i <= j <= |list| && list[i..j] == t
                      && (i == 0 || list[i - 1] == ',') && (j == |list| || list[j] == ',')
  }

  /** The text stands after a comma, up to the next one or the end. */
  ghost predicate ListedLater(list: string, t: string) {
    && ',' !in t
    && exists i, j :: 1 <= i <= j <= |list| && list[i..j] == t && list[i - 1] == ',' && (j == |list| || list[j] == ',')
  }

  ghost predicate ListedFirst(list: string, t: string) {
    |t| <= |list| && list[..|t|] == t && ',' !in t && (|t| == |list| || list[|t|] == ',')
  }

  lemma {:induction false} SplitIs(list: string, t: string)
    ensures t == SplitCommas(list)[0] <==> ListedFirst(list, t)
    ensures t in SplitCommas(list)[1..] <==> ListedLater(list, t)
    decreases |list|
  {
    if list == "" {
      assert SplitCommas(list) == [""];
    } else {
      var rest := list[1..];
      SplitIs(rest, t);
      ListedShift(list, t);
      if list[0] == ',' {
        assert SplitCommas(list)[1..] == SplitCommas(rest);
        assert t in SplitCommas(rest) <==> t == SplitCommas(rest)[0] || t in SplitCommas(rest)[1..];
      } else {
        assert SplitCommas(list)[1..] == SplitCommas(rest)[1..];
        SplitIs(rest, SplitCommas(rest)[0]);
        FirstGrows(list, SplitCommas(rest)[0], t);
      }
    }
  }

  lemma ListedShift(list: string, t: string)
    requires list != ""
    ensures ListedLater(list, t) <==> ListedLater(list[1..], t) || (list[0] == ',' && ListedFirst(list[1..], t))
  {
    var rest := list[1..];
    if ListedLater(list, t) {
      var i, j :| 1 <= i <= j <= |list| && list[i..j] == t && list[i - 1] == ',' && (j == |list| || list[j] == ',');
      LaterInRest(list, t, i, j);
    }
    if ListedLater(rest, t) {
      var i, j :| 1 <= i <= j <= |rest| && rest[i..j] == t && rest[i - 1] == ',' && (j == |rest| || rest[j] == ',');
      LaterInList(list, t, i, j);
    }
    if list[0] == ',' && ListedFirst(rest, t) {
      LaterAtFirst(list, t);
    }
  }

  lemma LaterInRest(list: string, t: string, i: nat, j: nat)
    requires 1 <= i <= j <= |list| && list[i..j] == t && list[i - 1] == ',' && (j == |list| || list[j] == ',') && ',' !in t
    ensures ListedLater(list[1..], t) || (list[0] == ',' && ListedFirst(list[1..], t))
  {
    assert list[1..][i - 1..j - 1] == t;
    if i == 1 {
      assert list[1..][..|t|] == t;
    }
  }

  lemma LaterInList(list: string, t: string, i: nat, j: nat)
    requires list != "" && 1 <= i <= j < |list| && list[1..][i..j] == t && list[i] == ','
    requires (j + 1 == |list| || list[j + 1] == ',') && ',' !in t
    ensures ListedLater(list, t)
  {
    assert list[i + 1..j + 1] == t && list[(i + 1) - 1] == ',';
  }

  lemma LaterAtFirst(list: string, t: string)
    requires list != "" && list[0] == ',' && ListedFirst(list[1..], t)
    ensures ListedLater(list, t)
  {
    assert list[1..1 + |t|] == t && list[1 - 1] == ',';
  }

  lemma FirstGrows(list: string, first: string, t: string)
    requires list != "" && list[0] != ',' && ListedFirst(list[1..], first)
    ensures ListedFirst(list, t) <==> t == [list[0]] + first
  {
    var rest := list[1..];
    var whole := [list[0]] + first;
    assert list[..|whole|] == whole;
    if ListedFirst(list, t) {
      assert |t| > 0;
    }
  }

  lemma ListIs(list: string, t: string)
    ensures t in SplitCommas(list) <==> Listed(list, t)
  {
    SplitIs(list, t);
    assert t in SplitCommas(list) <==> t == SplitCommas(list)[0] || t in SplitCommas(list)[1..];
    if ListedFirst(list, t) {
      assert list[0..|t|] == t;
    }
    if Listed(list, t) {
      var i, j :| 0 <= i <= j <= |list| && list[i..j] == t && (i == 0 || list[i - 1] == ',') && (j == |list| || list[j] == ',');
      if i == 0 {
        assert list[..|t|] == t;
      }
    }
  }
}
