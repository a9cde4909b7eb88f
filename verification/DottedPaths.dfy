/** Dotted paths: joining keys with "." and splitting a path into its keys again. */
module DottedPaths {

  predicate DotFree(key: string) { '.' !in key }

  /** Keys joined as `${prefix}.${key}` does. */
  function Join(path: seq<string>): string
    requires path != []
  {
    if |path| == 1 then path[0] else Join(path[..|path| - 1]) + "." + path[|path| - 1]
  }

  /** split(".") */
  function Split(s: string): (keys: seq<string>)
    ensures keys != []
  {
    if s == [] then [""]
    else
      var keys := Split(s[..|s| - 1]);
      var c := s[|s| - 1];
      if c == '.' then keys + [""] else keys[|keys| - 1 := keys[|keys| - 1] + [c]]
  }

  lemma {:induction false} SplitLastKey(a: string, key: string)
    requires DotFree(key)
    ensures Split(a + "." + key) == Split(a) + [key]
  {
    var s := a + "." + key;
    if key == "" {
      assert s[..|s| - 1] == a;
    } else {
      var short := key[..|key| - 1];
      assert forall c :: c in short ==> c in key;
      SplitLastKey(a, short);
      assert s[..|s| - 1] == a + "." + short;
      assert key == short + [key[|key| - 1]] && key[|key| - 1] in key;
    }
  }

  lemma {:induction false} SplitOneKey(key: string)
    requires DotFree(key)
    ensures Split(key) == [key]
  {
    if key != "" {
      var short := key[..|key| - 1];
      assert forall c :: c in short ==> c in key;
      SplitOneKey(short);
      assert key == short + [key[|key| - 1]] && key[|key| - 1] in key;
    }
  }

  lemma {:induction false} SplitJoin(path: seq<string>)
    requires path != [] && forall k :: k in path ==> DotFree(k)
    ensures Split(Join(path)) == path
  {
    var last := path[|path| - 1];
    assert last in path;
    if |path| == 1 {
      SplitOneKey(last);
      assert path == [last];
    } else {
      var init := path[..|path| - 1];
      SplitJoin(init);
      SplitLastKey(Join(init), last);
      assert path == init + [last];
    }
  }
}
