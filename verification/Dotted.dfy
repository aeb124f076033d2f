/** Text cut at its dots and put together again: str.split, str.join. */
module Dotted {
  function Join(ps: seq<string>): string {
    if ps == [] then [] else if |ps| == 1 then ps[0] else ps[0] + "." + Join(ps[1..])
  }

  function Split(s: string): (ps: seq<string>)
    ensures ps != []
  {
    if s == [] then [""]
    else
      var r := Split(s[1..]);
      if s[0] == '.' then [""] + r else [[s[0]] + r[0]] + r[1..]
  }

  lemma {:induction false} SplitWord(a: string, rest: string)
    requires '.' !in a
    ensures Split(a + "." + rest) == [a] + Split(rest)
    ensures Split(a) == [a]
  {
    if a == [] {
      assert ("." + rest)[1..] == rest;
      assert a + "." + rest == "." + rest;
    } else {
      SplitWord(a[1..], rest);
      assert (a + "." + rest)[1..] == a[1..] + "." + rest;
      assert a == [a[0]] + a[1..];
    }
  }

  lemma {:induction false} SplitOfJoin(ps: seq<string>)
    requires ps != [] && forall i :: 0 <= i < |ps| ==> '.' !in ps[i]
    ensures Split(Join(ps)) == ps
  {
    if |ps| == 1 {
      SplitWord(ps[0], "");
    } else {
      SplitWord(ps[0], Join(ps[1..]));
      SplitOfJoin(ps[1..]);
      assert ps[0] + "." + Join(ps[1..]) == Join(ps);
    }
  }

  lemma {:induction false} JoinOfSplit(s: string)
    ensures Join(Split(s)) == s
  {
    if s != [] {
      JoinOfSplit(s[1..]);
      var r := Split(s[1..]);
      assert s == [s[0]] + s[1..];
      if s[0] != '.' { assert ([[s[0]] + r[0]] + r[1..])[1..] == r[1..]; }
    }
  }
}
