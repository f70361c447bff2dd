/** Operations on lists of names. */
module Sequences {

  function Members(s: seq<string>): set<string> {
    set x | x in s
  }

  /** The wanted names, in order. */
  function KeepIn(s: seq<string>, wanted: set<string>): (r: seq<string>)
    ensures forall x :: x in r <==> x in s && x in wanted
  {
    if s == [] then []
    else if s[0] in wanted then [s[0]] + KeepIn(s[1..], wanted)
    else KeepIn(s[1..], wanted)
  }

  /** Keeping the wanted names of a list keeps them part by part, so in order and with repetitions. */
  lemma {:induction false} KeepInParts(a: seq<string>, b: seq<string>, wanted: set<string>)
    ensures KeepIn(a + b, wanted) == KeepIn(a, wanted) + KeepIn(b, wanted)
  {
    if a == [] {
      assert a + b == b;
    } else {
      KeepInParts(a[1..], b, wanted);
      assert (a + b)[1..] == a[1..] + b;
    }
  }

  lemma {:induction false} KeepAll(s: seq<string>, wanted: set<string>)
    requires forall x :: x in s ==> x in wanted
    ensures KeepIn(s, wanted) == s
  {
    if s != [] {
      KeepAll(s[1..], wanted);
    }
  }
}
