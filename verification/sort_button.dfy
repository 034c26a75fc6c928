/**
 * The three-state sort button: every click advances a counter modulo 3 and
 * fires exactly one of the up, down and reset callbacks, and the tooltip
 * names what the next click will do.
 */
module SortButton {
  /** The callback a click fires. */
  datatype Callback = Up | Down | Reset

  /** Tooltip texts indexed by the counter: ascending, descending, cancel. */
  const TIPS: seq<string> := ["点击升序", "点击降序", "取消排序"]

  datatype Button = Button(times: nat, tip: string)

  /** The button as first rendered. */
  const INITIAL := Button(0, TIPS[0])

  /** The counter is one of the three states and the tooltip is the state's text. */
  predicate Valid(b: Button)
  {
    b.times < 3 && b.tip == TIPS[b.times]
  }

  /** A click: the counter advances modulo 3, and the new value selects the callback and the tooltip. */
  function Click(b: Button): (r: (Button, Callback))
    ensures Valid(r.0)
    ensures r.0.times == (b.times + 1) % 3
    ensures r.1 == Up <==> r.0.times == 1
    ensures r.1 == Down <==> r.0.times == 2
    ensures r.1 == Reset <==> r.0.times == 0
  {
    var t := (b.times + 1) % 3;
    var callback := if t == 1 then Up else if t == 2 then Down else Reset;
    (Button(t, TIPS[t]), callback)
  }

  /** The up arrow is highlighted in state 1 and the down arrow in state 2. */
  predicate UpHighlighted(b: Button)
  {
    b.times == 1
  }

  predicate DownHighlighted(b: Button)
  {
    b.times == 2
  }

  /** The callback fired when the counter lands on `t`. */
  function CallbackFor(t: nat): Callback
  {
    if t == 1 then Up else if t == 2 then Down else Reset
  }

  /**
   * `n` clicks in a row: the button afterwards and the callbacks fired, in
   * order. The k-th click (from 0) lands the counter on times + k + 1
   * modulo 3 and fires that state's callback.
   */
  function Clicks(b: Button, n: nat): (r: (Button, seq<Callback>))
    ensures |r.1| == n
    ensures n == 0 ==> r.0 == b
    ensures n > 0 ==> Valid(r.0) && r.0.times == (b.times + n) % 3
    ensures forall k :: 0 <= k < n ==> r.1[k] == CallbackFor((b.times + k + 1) % 3)
    decreases n
  {
    if n == 0 then (b, [])
    else
      var step := Click(b);
      var rest := Clicks(step.0, n - 1);
      forall k | 0 <= k < n - 1
        ensures rest.1[k] == CallbackFor((b.times + k + 2) % 3)
      {
        ModThreeShift(b.times, k + 1);
      }
      ModThreeShift(b.times, n - 1);
      (rest.0, [step.1] + rest.1)
  }

  /** Reducing the counter first does not change where later clicks land. */
  lemma ModThreeShift(x: nat, k: nat)
    ensures ((x + 1) % 3 + k) % 3 == (x + 1 + k) % 3
  {
  }

  /** The highlighted arrow always matches the callback just fired. */
  lemma HighlightFollowsCallback(b: Button)
    ensures UpHighlighted(Click(b).0) <==> Click(b).1 == Up
    ensures DownHighlighted(Click(b).0) <==> Click(b).1 == Down
    ensures !UpHighlighted(Click(b).0) && !DownHighlighted(Click(b).0) <==> Click(b).1 == Reset
  {
  }

  /** From the initial button, three clicks call up, down and reset, and end where they began. */
  lemma ThreeClicksFromStart()
    ensures Clicks(INITIAL, 3) == (INITIAL, [Up, Down, Reset])
  {
    ThreeClicksUnfold(INITIAL);
  }

  /** Three clicks are the three single clicks in turn. */
  lemma ThreeClicksUnfold(b: Button)
    ensures var one := Click(b);
      var two := Click(one.0);
      var three := Click(two.0);
      Clicks(b, 3) == (three.0, [one.1, two.1, three.1])
  {
    var one := Click(b);
    var two := Click(one.0);
    var three := Click(two.0);
    assert Clicks(three.0, 0) == (three.0, []);
    assert [three.1] + [] == [three.1];
    assert Clicks(two.0, 1) == (three.0, [three.1]);
    assert [two.1] + [three.1] == [two.1, three.1];
    assert Clicks(one.0, 2) == (three.0, [two.1, three.1]);
    assert [one.1] + [two.1, three.1] == [one.1, two.1, three.1];
  }

  /** Three single clicks from a valid state come back to it; the callbacks are the three in rotation. */
  lemma ClickCycle(b: Button)
    requires Valid(b)
    ensures var one := Click(b);
      var two := Click(one.0);
      var three := Click(two.0);
      three.0 == b && {one.1, two.1, three.1} == {Up, Down, Reset}
  {
    if b.times == 0 {
    } else if b.times == 1 {
    } else {
    }
  }

  /** From any valid state three clicks return to it, having fired each callback once. */
  lemma ThreeClicksCycle(b: Button)
    requires Valid(b)
    ensures Clicks(b, 3).0 == b
    ensures Up in Clicks(b, 3).1 && Down in Clicks(b, 3).1 && Reset in Clicks(b, 3).1
  {
    ThreeClicksUnfold(b);
    ClickCycle(b);
  }
}
