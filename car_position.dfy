/** The car's position on the grid and the updaters that the keyboard
    handler and the four on-screen buttons pass to `setCarPos`.
    Every updater builds a fresh triple from the current one; nothing is
    bounded, so `int` is exact for the unit steps taken here. */
module CarPosition {
  import opened Wrappers

  datatype Pos = Pos(x: int, y: int, z: int)

  /** The position `GameScene` starts from. */
  const Origin := Pos(0, 0, 0)

  /** The four directional intents; also the four on-screen buttons. */
  datatype Direction = Up | Down | Left | Right

  /** One input event: a `keydown` on the window or a click on a button. */
  datatype Input = KeyDown(key: string) | Click(button: Direction)

  // ---------------------------------------------------------------------
  // Reference definitions: which direction an input means and the unit
  // vector each direction adds. These are independent of the updaters.
  // ---------------------------------------------------------------------

  /** The name of the arrow key that corresponds to a direction. */
  function KeyName(d: Direction): string
  {
    match d
    case Up => "ArrowUp"
    case Down => "ArrowDown"
    case Left => "ArrowLeft"
    case Right => "ArrowRight"
  }

  /** The direction an input stands for, if any. */
  function Intent(i: Input): Option<Direction>
  {
    match i
    case Click(d) => Some(d)
    case KeyDown(k) =>
      if k == KeyName(Up) then Some(Up)
      else if k == KeyName(Down) then Some(Down)
      else if k == KeyName(Left) then Some(Left)
      else if k == KeyName(Right) then Some(Right)
      else None
  }

  /** The unit step of a direction: forward is -z, backward +z, left -x, right +x. */
  function Unit(d: Direction): Pos
  {
    match d
    case Up => Pos(0, 0, -1)
    case Down => Pos(0, 0, 1)
    case Left => Pos(-1, 0, 0)
    case Right => Pos(1, 0, 0)
  }

  function Add(p: Pos, q: Pos): Pos
  {
    Pos(p.x + q.x, p.y + q.y, p.z + q.z)
  }

  // ---------------------------------------------------------------------
  // The updaters as the component writes them.
  // ---------------------------------------------------------------------

  /** The updater of the `keydown` handler: a switch on the key name. */
  function OnKeyDown(p: Pos, key: string): (r: Pos)
    ensures r.y == p.y
    ensures Intent(KeyDown(key)).Some? ==> r == Add(p, Unit(Intent(KeyDown(key)).value))
    ensures Intent(KeyDown(key)).None? ==> r == p
  {
    match key
    case "ArrowUp" => Pos(p.x, p.y, p.z - 1)
    case "ArrowDown" => Pos(p.x, p.y, p.z + 1)
    case "ArrowLeft" => Pos(p.x - 1, p.y, p.z)
    case "ArrowRight" => Pos(p.x + 1, p.y, p.z)
    case _ => Pos(p.x, p.y, p.z)
  }

  /** The updater passed by each on-screen button's click handler. */
  function OnClick(p: Pos, b: Direction): (r: Pos)
    ensures r.y == p.y
    ensures r == Add(p, Unit(b))
  {
    match b
    case Up => Pos(p.x, p.y, p.z - 1)
    case Left => Pos(p.x - 1, p.y, p.z)
    case Right => Pos(p.x + 1, p.y, p.z)
    case Down => Pos(p.x, p.y, p.z + 1)
  }

  /** The effect of one input on the committed position: the unit step of
      the direction it stands for, or nothing. */
  function Apply(p: Pos, i: Input): (r: Pos)
    ensures Intent(i).Some? ==> r == Add(p, Unit(Intent(i).value))
    ensures Intent(i).None? ==> r == p
  {
    match i
    case KeyDown(k) => OnKeyDown(p, k)
    case Click(b) => OnClick(p, b)
  }

  function Abs(n: int): nat
  {
    if n < 0 then -n else n
  }

  /** The position after the inputs, applied in dispatch order, each to the
      latest committed position. Each input moves the car at most one step,
      and never vertically. */
  function Run(p: Pos, inputs: seq<Input>): (r: Pos)
    ensures Abs(r.x - p.x) + Abs(r.z - p.z) <= |inputs|
    ensures r.y == p.y
  {
    if inputs == [] then p
    else Apply(Run(p, inputs[..|inputs| - 1]), inputs[|inputs| - 1])
  }

  /** How many of the inputs stand for direction `d`. */
  function Count(inputs: seq<Input>, d: Direction): nat
  {
    if inputs == [] then 0
    else Count(inputs[..|inputs| - 1], d) + (if Intent(inputs[|inputs| - 1]) == Some(d) then 1 else 0)
  }

  /** The vector sum of all the unit steps the inputs stand for. */
  function Net(inputs: seq<Input>): Pos
  {
    Pos(Count(inputs, Right) - Count(inputs, Left), 0, Count(inputs, Down) - Count(inputs, Up))
  }

  // ---------------------------------------------------------------------
  // Per-key and per-button effects.
  // ---------------------------------------------------------------------

  /** ArrowUp moves forward and ArrowDown backward by exactly one along z. */
  lemma UpDownKeys(p: Pos)
    ensures OnKeyDown(p, "ArrowUp") == Pos(p.x, p.y, p.z - 1)
    ensures OnKeyDown(p, "ArrowDown") == Pos(p.x, p.y, p.z + 1)
  {
  }

  /** ArrowLeft and ArrowRight move by exactly one along x. */
  lemma LeftRightKeys(p: Pos)
    ensures OnKeyDown(p, "ArrowLeft") == Pos(p.x - 1, p.y, p.z)
    ensures OnKeyDown(p, "ArrowRight") == Pos(p.x + 1, p.y, p.z)
  {
  }

  /** Any key other than the four arrows leaves the position as it was,
      and only those four keys move the car. */
  lemma UnknownKeyIsNoOp(p: Pos, key: string)
    ensures OnKeyDown(p, key) == p <==> key !in {"ArrowUp", "ArrowDown", "ArrowLeft", "ArrowRight"}
  {
  }

  /** Each on-screen button has the same effect as its arrow key. */
  lemma ButtonMatchesKey(p: Pos, b: Direction)
    ensures OnClick(p, b) == OnKeyDown(p, KeyName(b))
  {
  }

  // ---------------------------------------------------------------------
  // The final position is the vector sum of the steps.
  // ---------------------------------------------------------------------

  lemma CountSingle(i: Input, d: Direction)
    ensures Count([i], d) == if Intent(i) == Some(d) then 1 else 0
  {
    assert [i][..0] == [];
  }

  /** One input adds the unit step of its direction, if it has one. */
  lemma ApplyAddsIntent(p: Pos, i: Input)
    ensures Apply(p, i) == Add(p, Net([i]))
  {
    CountSingle(i, Up);
    CountSingle(i, Down);
    CountSingle(i, Left);
    CountSingle(i, Right);
  }

  /** Starting from `p`, the inputs move the car by their vector sum. */
  lemma {:induction false} RunIsVectorSum(p: Pos, inputs: seq<Input>)
    ensures Run(p, inputs) == Add(p, Net(inputs))
  {
    if inputs != [] {
      var front, last := inputs[..|inputs| - 1], inputs[|inputs| - 1];
      RunIsVectorSum(p, front);
      ApplyAddsIntent(Run(p, front), last);
      CountSingle(last, Up);
      CountSingle(last, Down);
      CountSingle(last, Left);
      CountSingle(last, Right);
    }
  }

  /** From (0,0,0) the car ends at (#Right - #Left, 0, #Down - #Up). */
  lemma RunFromOrigin(inputs: seq<Input>)
    ensures Run(Origin, inputs) ==
      Pos(Count(inputs, Right) - Count(inputs, Left), 0, Count(inputs, Down) - Count(inputs, Up))
  {
    RunIsVectorSum(Origin, inputs);
  }

  lemma {:induction false} CountAppend(a: seq<Input>, b: seq<Input>, d: Direction)
    ensures Count(a + b, d) == Count(a, d) + Count(b, d)
  {
    if b != [] {
      var b' := b[..|b| - 1];
      assert (a + b)[..|a + b| - 1] == a + b';
      assert (a + b)[|a + b| - 1] == b[|b| - 1];
      CountAppend(a, b', d);
    } else {
      assert a + b == a;
    }
  }

  /** Taking out the input at `i` takes out its contribution to the count. */
  lemma CountRemove(b: seq<Input>, i: nat, d: Direction)
    requires i < |b|
    ensures Count(b, d) == Count(b[..i] + b[i + 1..], d) + (if Intent(b[i]) == Some(d) then 1 else 0)
  {
    var x := b[i];
    assert b == b[..i] + ([x] + b[i + 1..]);
    CountAppend(b[..i], [x] + b[i + 1..], d);
    CountAppend([x], b[i + 1..], d);
    CountAppend(b[..i], b[i + 1..], d);
    CountSingle(x, d);
  }

  lemma MultisetRemove(b: seq<Input>, i: nat)
    requires i < |b|
    ensures multiset(b[..i] + b[i + 1..]) == multiset(b) - multiset{b[i]}
  {
    assert b == b[..i] + [b[i]] + b[i + 1..];
  }

  /** Counting directions ignores the order of the inputs. */
  lemma {:induction false} CountOfPermutation(a: seq<Input>, b: seq<Input>, d: Direction)
    requires multiset(a) == multiset(b)
    ensures Count(a, d) == Count(b, d)
  {
    if a == [] {
      assert |b| == |multiset(b)| == 0;
    } else {
      var a', x := a[..|a| - 1], a[|a| - 1];
      assert a == a' + [x];
      assert multiset(a') == multiset(a) - multiset{x};
      assert x in multiset(b);
      var i :| 0 <= i < |b| && b[i] == x;
      MultisetRemove(b, i);
      CountOfPermutation(a', b[..i] + b[i + 1..], d);
      CountRemove(b, i, d);
      CountSingle(x, d);
      CountAppend(a', [x], d);
    }
  }

  /** The final position depends only on how often each direction was
      pressed, not on the order of the presses. */
  lemma RunIgnoresOrder(p: Pos, a: seq<Input>, b: seq<Input>)
    requires multiset(a) == multiset(b)
    ensures Run(p, a) == Run(p, b)
  {
    RunIsVectorSum(p, a);
    RunIsVectorSum(p, b);
    CountOfPermutation(a, b, Up);
    CountOfPermutation(a, b, Down);
    CountOfPermutation(a, b, Left);
    CountOfPermutation(a, b, Right);
  }

  /** Running one more input applies it to the position reached so far. */
  lemma RunSnoc(p: Pos, inputs: seq<Input>, i: Input)
    ensures Run(p, inputs + [i]) == Apply(Run(p, inputs), i)
  {
    assert (inputs + [i])[..|inputs|] == inputs;
  }

  lemma RunThree(p: Pos, a: Input, b: Input, c: Input)
    ensures Run(p, [a, b, c]) == Apply(Apply(Apply(p, a), b), c)
  {
    RunSnoc(p, [], a);
    RunSnoc(p, [a], b);
    RunSnoc(p, [a, b], c);
    assert [a] + [b] == [a, b];
    assert [a, b] + [c] == [a, b, c];
  }

  /** Up, Right, Up from the start leaves the car at (1, 0, -2). */
  lemma UpRightUpScenario()
    ensures Run(Origin, [KeyDown("ArrowUp"), KeyDown("ArrowRight"), KeyDown("ArrowUp")]) == Pos(1, 0, -2)
  {
    var up, right := KeyDown("ArrowUp"), KeyDown("ArrowRight");
    RunThree(Origin, up, right, up);
    UpDownKeys(Origin);
    LeftRightKeys(Pos(0, 0, -1));
    UpDownKeys(Pos(1, 0, -1));
  }

  /** Two clicks on the left button move the car two steps along -x. */
  lemma LeftTwiceScenario(p: Pos)
    ensures Run(p, [Click(Left), Click(Left)]) == Pos(p.x - 2, p.y, p.z)
  {
    RunSnoc(p, [], Click(Left));
    RunSnoc(p, [Click(Left)], Click(Left));
  }
}
