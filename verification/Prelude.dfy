/** Small value types shared by the other modules. */
module Prelude {

  datatype Option<+T> = None | Some(value: T)

  /** The value a map holds at a key, or None when the key is free. */
  function At<K, V>(m: map<K, V>, k: K): Option<V> {
    if k in m then Some(m[k]) else None
  }

  /** Where in a list something holds; how often it does is the size of that set. */
  ghost function Where<T(!new)>(s: seq<T>, p: T -> bool): set<int> {
    set i | 0 <= i < |s| && p(s[i])
  }

  lemma WhereGrows<T(!new)>(s: seq<T>, p: T -> bool)
    requires s != []
    ensures |Where(s, p)| == |Where(s[..|s| - 1], p)| + if p(s[|s| - 1]) then 1 else 0
  {
    var last := |s| - 1;
    var init := Where(s[..last], p);
    assert Where(s, p) == init + if p(s[last]) then {last} else {};
    assert last !in init;
  }
}
