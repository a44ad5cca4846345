/** How the bars in a text weigh: two each, but only one behind a quote, where a bar may start a word in bars. */
module BarWeight {

  function BarAt(s: string, i: nat): nat
    requires i < |s|
  {
    if s[i] != '|' then 0 else if i > 0 && s[i - 1] == '"' then 1 else 2
  }

  function Weight(s: string): nat {
    if s == "" then 0 else Weight(s[..|s| - 1]) + BarAt(s, |s| - 1)
  }

  /** A bar that comes behind a quote. */
  predicate Meet(a: string, b: string) {
    a != "" && b != "" && a[|a| - 1] == '"' && b[0] == '|'
  }

  lemma {:induction false} WeightJoin(a: string, b: string)
    ensures Weight(a + b) == Weight(a) + Weight(b) - if Meet(a, b) then 1 else 0
    decreases b
  {
    if b == "" {
      assert a + b == a;
    } else {
      var front := b[..|b| - 1];
      WeightJoin(a, front);
      assert (a + b)[..|a + b| - 1] == a + front;
      if front == "" {
        assert a + front == a;
      }
    }
  }

  lemma {:induction false} NoBars(s: string)
    requires forall i :: 0 <= i < |s| ==> s[i] != '|'
    ensures Weight(s) == 0
    decreases s
  {
    if s != "" {
      NoBars(s[..|s| - 1]);
    }
  }

  /** Only where the bars and the quotes stand counts. */
  lemma {:induction false} SameWeight(s: string, t: string)
    requires |s| == |t| && forall i :: 0 <= i < |s| ==> (s[i] == '|' <==> t[i] == '|') && (s[i] == '"' <==> t[i] == '"')
    ensures Weight(s) == Weight(t)
    decreases s
  {
    if s != "" {
      SameWeight(s[..|s| - 1], t[..|t| - 1]);
    }
  }
}
