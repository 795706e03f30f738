/** Vocabulary shared by the manager and the module lifecycle. */
module Basics {

  datatype Option<+T> = None | Some(value: T)

  /** An error value, of which only the identity matters. */
  type Error = int

  /**
   * A context as its observer sees it: it stays live for a number of further checks and is cancelled for good after
   * them.
   */
  datatype Context = Live | Expires(checks: nat) {

    predicate Cancelled() {
      Expires? && checks == 0
    }

    /** The context after one more check. */
    function Checked(): Context {
      if Expires? && checks > 0 then Expires(checks - 1) else this
    }

    /** The context after n more checks. */
    function After(n: nat): Context {
      if Live? then this else if n < checks then Expires(checks - n) else Expires(0)
    }

    /** Out of the next n checks, how many still see it live. */
    function LiveFor(n: nat): nat {
      if Live? || checks >= n then n else checks
    }
  }

  /** Out of any number of checks a context survives the first k, or all, and is cancelled from then on. */
  lemma ContextMeans(k: nat, i: nat)
    ensures !Live.Cancelled() && Live.Checked() == Live == Live.After(i) && Live.LiveFor(i) == i
    ensures Expires(k).Cancelled() <==> k == 0
    ensures Expires(k + 1).Checked() == Expires(k)
    ensures Expires(k).After(0) == Expires(k) && Expires(k).After(i + 1) == Expires(k).After(i).Checked()
    ensures Expires(k).After(i).Cancelled() <==> k <= i
    ensures Expires(k).LiveFor(i) == if i < k then i else k
  {
  }

  lemma ConcatAssociative<T>(a: seq<T>, b: seq<T>, c: seq<T>)
    ensures (a + b) + c == a + (b + c)
  {
  }

  lemma Inhabited<T>(s: seq<T>)
    ensures s != [] ==> exists x :: x in s
  {
    if s != [] {
      assert s[0] in s;
    }
  }
}
