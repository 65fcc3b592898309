/**
 * The order in which the document store returns query results: strings are
 * compared character by character by code point (the order of their UTF-8
 * encodings), and a proper prefix sorts first.
 */
module Ordering {

  predicate StrLess(a: string, b: string)
    decreases |a|
  {
    if a == [] then b != []
    else if b == [] then false
    else if a[0] != b[0] then a[0] < b[0]
    else StrLess(a[1..], b[1..])
  }

  lemma {:induction false} StrLessIrreflexive(a: string)
    ensures !StrLess(a, a)
    decreases |a|
  {
    if a != [] { StrLessIrreflexive(a[1..]); }
  }

  lemma {:induction false} StrLessAsymmetric(a: string, b: string)
    ensures StrLess(a, b) ==> !StrLess(b, a)
    decreases |a|
  {
    if a != [] && b != [] && a[0] == b[0] { StrLessAsymmetric(a[1..], b[1..]); }
  }

  lemma {:induction false} StrLessTotal(a: string, b: string)
    ensures a == b || StrLess(a, b) || StrLess(b, a)
    decreases |a|
  {
    if a != [] && b != [] && a[0] == b[0] {
      StrLessTotal(a[1..], b[1..]);
      if a[1..] == b[1..] {
        assert a == [a[0]] + a[1..] && b == [b[0]] + b[1..];
      }
    }
  }

  lemma {:induction false} StrLessTransitive(a: string, b: string, c: string)
    requires StrLess(a, b) && StrLess(b, c)
    ensures StrLess(a, c)
    decreases |a|
  {
    if a != [] && a[0] == b[0] && b[0] == c[0] {
      StrLessTransitive(a[1..], b[1..], c[1..]);
    }
  }

  /** The position of a task in `orderBy("taskNo")`: by task number, then by document id. */
  datatype SortKey = SortKey(taskNo: string, id: string)

  predicate KeyLess(x: SortKey, y: SortKey)
  {
    StrLess(x.taskNo, y.taskNo) || (x.taskNo == y.taskNo && StrLess(x.id, y.id))
  }

  lemma KeyLessIrreflexive(x: SortKey)
    ensures !KeyLess(x, x)
  {
    StrLessIrreflexive(x.taskNo);
    StrLessIrreflexive(x.id);
  }

  lemma KeyLessAsymmetric(x: SortKey, y: SortKey)
    ensures KeyLess(x, y) ==> !KeyLess(y, x)
  {
    StrLessAsymmetric(x.taskNo, y.taskNo);
    StrLessAsymmetric(x.id, y.id);
    StrLessIrreflexive(x.taskNo);
  }

  lemma KeyLessTotal(x: SortKey, y: SortKey)
    ensures x == y || KeyLess(x, y) || KeyLess(y, x)
  {
    StrLessTotal(x.taskNo, y.taskNo);
    StrLessTotal(x.id, y.id);
  }

  lemma KeyLessTransitive(x: SortKey, y: SortKey, z: SortKey)
    requires KeyLess(x, y) && KeyLess(y, z)
    ensures KeyLess(x, z)
  {
    if StrLess(x.taskNo, y.taskNo) && StrLess(y.taskNo, z.taskNo) {
      StrLessTransitive(x.taskNo, y.taskNo, z.taskNo);
    } else if x.taskNo == y.taskNo && y.taskNo == z.taskNo {
      StrLessTransitive(x.id, y.id, z.id);
    }
  }
}
