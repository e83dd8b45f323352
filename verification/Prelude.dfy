/** Stock datatypes shared by the other modules. */
module Prelude {
  type Byte = x: int | 0 <= x < 256

  /** A byte string of the source. */
  type Text = seq<Byte>

  datatype Option<+T> = None | Some(value: T)

  ghost predicate NoDuplicates<T>(s: seq<T>) {
    forall i, j :: 0 <= i < j < |s| ==> s[i] != s[j]
  }

  /** `s` lists the elements of `keys`, each once, in some order. */
  ghost predicate Enumerates<T>(s: seq<T>, keys: set<T>) {
    && NoDuplicates(s)
    && (forall x :: x in keys ==> x in s)
    && (forall x :: x in s ==> x in keys)
  }

  lemma AppendAssociates<T>(a: seq<T>, b: seq<T>, c: seq<T>)
    ensures a + b + c == a + (b + c)
  {
  }

  lemma Member<T>(s: set<T>) returns (x: T)
    requires s != {}
    ensures x in s
  {
    x :| x in s;
  }

  lemma EnumerationDropsLast<T>(s: seq<T>, keys: set<T>)
    requires Enumerates(s, keys) && s != []
    ensures Enumerates(s[..|s| - 1], keys - {s[|s| - 1]}) && s[|s| - 1] in keys
  {
    var t := s[..|s| - 1];
    assert s == t + [s[|s| - 1]];
    forall x | x in t ensures x in keys - {s[|s| - 1]} {
      var i :| 0 <= i < |t| && t[i] == x;
      assert s[i] != s[|s| - 1];
    }
  }
}
