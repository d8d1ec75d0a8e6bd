/** Small vocabulary shared by every module of the model. */
module Common {

  datatype Option<+T> = None | Some(value: T)

  /** Object identifiers. `bson.NewObjectId` is modelled by a step that names an
      identifier nobody has used yet. */
  type Id = nat

  /** `strings.Trim(s, " ")`. */
  function Trim(s: string): string {
    TrimRight(TrimLeft(s))
  }

  function TrimLeft(s: string): string {
    if s != "" && s[0] == ' ' then TrimLeft(s[1..]) else s
  }

  function TrimRight(s: string): string {
    if s != "" && s[|s|-1] == ' ' then TrimRight(s[..|s|-1]) else s
  }

  /** `t` is `s` without the blanks at both ends. */
  ghost predicate Trimmed(s: string, t: string) {
    exists i, j :: 0 <= i <= j <= |s| && t == s[i..j]
                   && (forall k :: 0 <= k < i || j <= k < |s| ==> s[k] == ' ')
                   && (t != "" ==> t[0] != ' ' && t[|t|-1] != ' ')
  }

  lemma {:induction false} TrimLeftIs(s: string) returns (i: nat)
    ensures i <= |s| && TrimLeft(s) == s[i..] && (forall k :: 0 <= k < i ==> s[k] == ' ')
    ensures i < |s| ==> s[i] != ' '
  {
    if s != "" && s[0] == ' ' {
      var k := TrimLeftIs(s[1..]);
      i := k + 1;
      assert forall m :: 1 <= m < i ==> s[m] == s[1..][m - 1];
    } else {
      i := 0;
    }
  }

  lemma {:induction false} TrimRightIs(s: string) returns (j: nat)
    ensures j <= |s| && TrimRight(s) == s[..j] && (forall k :: j <= k < |s| ==> s[k] == ' ')
    ensures j > 0 ==> s[j - 1] != ' '
  {
    if s != "" && s[|s|-1] == ' ' {
      j := TrimRightIs(s[..|s|-1]);
      assert forall m :: 0 <= m < |s| - 1 ==> s[m] == s[..|s|-1][m];
    } else {
      j := |s|;
    }
  }

  lemma TrimIs(s: string)
    ensures Trimmed(s, Trim(s))
  {
    var i := TrimLeftIs(s);
    var rest := s[i..];
    var j := TrimRightIs(rest);
    assert rest[..j] == s[i..i + j];
    assert forall k :: i + j <= k < |s| ==> s[k] == rest[k - i];
    assert j > 0 ==> rest[..j][0] == s[i] && rest[..j][j - 1] == rest[j - 1];
  }
}
