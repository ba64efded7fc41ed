/** The string operations the report uses, all ordinal (character by
    character, case-sensitive): `String.Contains`, `String.Join`, and an
    ordinal text order `StrLe`, one of the orders the table sort may use. */
module Text {

  /** `sub` occurs in `s` at index `i`. */
  ghost predicate OccursAt(s: string, sub: string, i: int) {
    0 <= i && i + |sub| <= |s| && s[i..i + |sub|] == sub
  }

  /** `s.Contains(sub)`: ordinal substring search. */
  function Contains(s: string, sub: string): bool
    decreases |s|
  {
    |sub| <= |s| && (s[..|sub|] == sub || Contains(s[1..], sub))
  }

  /** Contains agrees with the reference definition "sub occurs somewhere in s". */
  lemma {:induction false} ContainsIff(s: string, sub: string)
    ensures Contains(s, sub) <==> exists i :: OccursAt(s, sub, i)
    decreases |s|
  {
    if Contains(s, sub) {
      ContainsWitness(s, sub);
    }
    if i :| OccursAt(s, sub, i) {
      OccurrenceContained(s, sub, i);
    }
  }

  lemma {:induction false} ContainsWitness(s: string, sub: string)
    requires Contains(s, sub)
    ensures exists i :: OccursAt(s, sub, i)
    decreases |s|
  {
    if s[..|sub|] == sub {
      assert OccursAt(s, sub, 0);
    } else {
      ContainsWitness(s[1..], sub);
      var i :| OccursAt(s[1..], sub, i);
      assert s[1..][i..i + |sub|] == s[i + 1..i + 1 + |sub|];
      assert OccursAt(s, sub, i + 1);
    }
  }

  lemma {:induction false} OccurrenceContained(s: string, sub: string, i: int)
    requires OccursAt(s, sub, i)
    ensures Contains(s, sub)
    decreases i
  {
    if i > 0 {
      assert s[1..][i - 1..i - 1 + |sub|] == s[i..i + |sub|];
      OccurrenceContained(s[1..], sub, i - 1);
    } else {
      assert s[..|sub|] == s[0..|sub|];
    }
  }

  /** `String.Join(sep, parts)`. */
  function Join(sep: string, parts: seq<string>): string
    decreases |parts|
  {
    if |parts| == 0 then ""
    else if |parts| == 1 then parts[0]
    else parts[0] + sep + Join(sep, parts[1..])
  }

  /** Where part `k` starts in `Join(sep, parts)`: every earlier part and its
      separator come before it. */
  function Offset(sep: string, parts: seq<string>, k: nat): nat
    requires k <= |parts|
    decreases k
  {
    if k == 0 then 0 else |parts[0]| + |sep| + Offset(sep, parts[1..], k - 1)
  }

  /** Each part is one separator further on than the end of the part before. */
  lemma {:induction false} OffsetStep(sep: string, parts: seq<string>, k: nat)
    requires k < |parts|
    ensures Offset(sep, parts, k + 1) == Offset(sep, parts, k) + |parts[k]| + |sep|
    decreases k
  {
    if k > 0 {
      OffsetStep(sep, parts[1..], k - 1);
    }
  }

  /** The joined text holds all the parts and one separator fewer than parts. */
  lemma {:induction false} JoinLength(sep: string, parts: seq<string>)
    requires |parts| > 0
    ensures |Join(sep, parts)| + |sep| == Offset(sep, parts, |parts|)
    decreases |parts|
  {
    if |parts| > 1 {
      JoinLength(sep, parts[1..]);
    }
  }

  /** The joined text is the parts in order with one separator between
      neighbours: part `k` stands at `Offset(k)`, and unless it is the last
      part the separator follows it. Together with JoinLength, nothing else
      is in the text. */
  lemma {:induction false} JoinPart(sep: string, parts: seq<string>, k: nat)
    requires k < |parts|
    ensures Offset(sep, parts, k) + |parts[k]| <= |Join(sep, parts)|
    ensures Join(sep, parts)[Offset(sep, parts, k)..Offset(sep, parts, k) + |parts[k]|] == parts[k]
    ensures k + 1 < |parts| ==>
      Offset(sep, parts, k) + |parts[k]| + |sep| <= |Join(sep, parts)| &&
      Join(sep, parts)[Offset(sep, parts, k) + |parts[k]|..Offset(sep, parts, k) + |parts[k]| + |sep|] == sep
    decreases |parts|
  {
    if |parts| > 1 {
      var tail := parts[1..];
      var head := parts[0] + sep;
      assert Join(sep, parts) == head + Join(sep, tail);
      if k == 0 {
        SliceOfAppend(parts[0], sep + Join(sep, tail), 0, |parts[0]|);
        SliceAfterPrefix(parts[0], sep + Join(sep, tail), 0, |sep|);
        SliceOfAppend(sep, Join(sep, tail), 0, |sep|);
      } else {
        JoinPart(sep, tail, k - 1);
        var o := Offset(sep, tail, k - 1);
        assert tail[k - 1] == parts[k];
        SliceAfterPrefix(head, Join(sep, tail), o, o + |parts[k]|);
        if k + 1 < |parts| {
          SliceAfterPrefix(head, Join(sep, tail), o + |parts[k]|, o + |parts[k]| + |sep|);
        }
      }
    }
  }

  /** A slice inside the first of two joined texts is a slice of that text. */
  lemma SliceOfAppend(x: string, y: string, i: nat, j: nat)
    requires i <= j <= |x|
    ensures (x + y)[i..j] == x[i..j]
  {
  }

  /** A slice past the first of two joined texts is a slice of the second. */
  lemma SliceAfterPrefix(x: string, y: string, i: nat, j: nat)
    requires i <= j <= |y|
    ensures (x + y)[|x| + i..|x| + j] == y[i..j]
  {
  }

  /** Ordinal "less than or equal" on text: lexicographic by character code,
      a proper prefix coming first. */
  function StrLe(a: string, b: string): bool
    decreases |a|
  {
    |a| == 0 || (|b| > 0 && (a[0] < b[0] || (a[0] == b[0] && StrLe(a[1..], b[1..]))))
  }

  /** StrLe is a total order: any two texts compare one way or the other ... */
  lemma {:induction false} StrLeTotal(a: string, b: string)
    ensures StrLe(a, b) || StrLe(b, a)
    decreases |a|
  {
    if |a| > 0 && |b| > 0 && a[0] == b[0] {
      StrLeTotal(a[1..], b[1..]);
    }
  }

  /** ... it is transitive ... */
  lemma {:induction false} StrLeTransitive(a: string, b: string, c: string)
    requires StrLe(a, b) && StrLe(b, c)
    ensures StrLe(a, c)
    decreases |a|
  {
    if |a| > 0 && a[0] == b[0] && b[0] == c[0] {
      StrLeTransitive(a[1..], b[1..], c[1..]);
    }
  }

  /** ... and antisymmetric. */
  lemma {:induction false} StrLeAntisymmetric(a: string, b: string)
    requires StrLe(a, b) && StrLe(b, a)
    ensures a == b
    decreases |a|
  {
    if |a| > 0 {
      StrLeAntisymmetric(a[1..], b[1..]);
      assert a == [a[0]] + a[1..] && b == [b[0]] + b[1..];
    }
  }
}
