/** The order of text keys: by the first character that differs. */
module KeyOrder {

  predicate Before(a: string, b: string) {
    b != "" && (a == "" || a[0] < b[0] || (a[0] == b[0] && Before(a[1..], b[1..])))
  }

  /** At the first character that differs, or where the shorter key ends, the first of them is the smaller. */
  ghost predicate Earlier(a: string, b: string) {
    exists k :: 0 <= k <= |a| && k < |b| && a[..k] == b[..k] && (k == |a| || a[k] < b[k])
  }

  lemma EarlierStep(a: string, b: string)
    requires a != "" && b != "" && a[0] == b[0]
    ensures Earlier(a, b) <==> Earlier(a[1..], b[1..])
  {
    var x, y := a[1..], b[1..];
    if k :| 0 <= k <= |x| && k < |y| && x[..k] == y[..k] && (k == |x| || x[k] < y[k]) {
      assert a[..k + 1] == [a[0]] + x[..k] == [b[0]] + y[..k] == b[..k + 1];
    }
    if k :| 0 <= k <= |a| && k < |b| && a[..k] == b[..k] && (k == |a| || a[k] < b[k]) {
      assert k > 0 && x[..k - 1] == a[..k][1..] == b[..k][1..] == y[..k - 1];
    }
  }

  lemma {:induction false} BeforeIsEarlier(a: string, b: string)
    ensures Before(a, b) <==> Earlier(a, b)
  {
    if a != "" && b != "" && a[0] == b[0] {
      EarlierStep(a, b);
      BeforeIsEarlier(a[1..], b[1..]);
    } else if b != "" {
      assert a[..0] == b[..0];
      assert forall k :: 0 < k <= |a| && k < |b| && a[..k] == b[..k] ==> a[..k][0] == b[..k][0];
    }
  }

  lemma {:induction false} BeforeIsTotal(a: string, b: string)
    ensures a == b || Before(a, b) || Before(b, a)
    ensures !(Before(a, b) && Before(b, a)) && (a == b ==> !Before(a, b))
  {
    if a != "" && b != "" && a[0] == b[0] {
      BeforeIsTotal(a[1..], b[1..]);
      assert a == [a[0]] + a[1..] && b == [b[0]] + b[1..];
    }
  }

  lemma {:induction false} BeforeIsTransitive(a: string, b: string, c: string)
    requires Before(a, b) && Before(b, c)
    ensures Before(a, c)
  {
    if a != "" && a[0] == b[0] == c[0] {
      BeforeIsTransitive(a[1..], b[1..], c[1..]);
    }
  }

  function Smallest(keys: seq<string>): (k: string)
    requires keys != []
    ensures k in keys
  {
    if |keys| == 1 then keys[0]
    else
      var rest := Smallest(keys[1..]);
      if Before(rest, keys[0]) then rest else keys[0]
  }

  lemma {:induction false} SmallestIsFirst(keys: seq<string>, k: string)
    requires k in keys
    ensures k == Smallest(keys) || Earlier(Smallest(keys), k)
  {
    BeforeIsEarlier(Smallest(keys), k);
    if |keys| > 1 {
      var rest := Smallest(keys[1..]);
      BeforeIsTotal(rest, keys[0]);
      if k in keys[1..] {
        SmallestIsFirst(keys[1..], k);
        BeforeIsEarlier(rest, k);
        if !Before(rest, keys[0]) && rest != k && rest != keys[0] { BeforeIsTransitive(keys[0], rest, k); }
      }
    }
  }

  /** No two keys are each earlier than the other. */
  lemma EarlierIsStrict(a: string, b: string)
    ensures !(Earlier(a, b) && Earlier(b, a))
  {
    BeforeIsEarlier(a, b);
    BeforeIsEarlier(b, a);
    BeforeIsTotal(a, b);
  }
}
