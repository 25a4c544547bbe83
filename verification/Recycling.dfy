/**
 * A run in which the id heap hands out an id that the other side still mentions.  The left end
 * abandons channel 1 before it is confirmed, gets id 1 again, and takes the old confirmation and
 * the old data for the new channel.
 */
module Recycling {
  import opened Wrappers
  import opened Endpoint
  import opened Protocol

  const HELLO: Payload := [7]
  const REQUEST := Frame(OPEN, 0, 0, 1, [])
  const REPLY := Frame(CONFIRMATION, 0, 1, 1, [])
  const GREETING := Frame(DATA, 0, 1, 1, HELLO)

  function OpenOne(): Act { OpenAct(User, [], Some(1), true) }

  function Get(alloc: Option<nat>): Act { ReceiveAct(Env(false, alloc, true, true, true)) }

  function StepRight(x: Sys, act: Act): Sys
    requires Enabled(Swap(x), act)
  {
    Swap(StepLeft(Swap(x), act))
  }

  function Left(table: map<nat, Chan>, got: map<nat, seq<Payload>>): Peer {
    Peer(table, map[1 := []], got, map[1 := Open], map[])
  }

  function Right(table: map<nat, Chan>, wrote: map<nat, seq<Payload>>): Peer {
    Peer(table, wrote, map[1 := []], map[1 := Open], map[1 := 1])
  }

  function Waiting(): map<nat, Chan> { map[1 := Chan(User, 0, Opening)] }

  function Bound1(): map<nat, Chan> { map[1 := Chan(User, 1, Open)] }

  function Nobody(): Peer { Peer(map[], map[], map[], map[], map[]) }

  function S1(): Sys { Sys(Left(Waiting(), map[1 := []]), Nobody(), [REQUEST], []) }
  function S2(): Sys { Sys(Left(Waiting(), map[1 := []]), Right(Bound1(), map[1 := []]), [], [REPLY]) }
  function S3(): Sys { Sys(Left(Waiting(), map[1 := []]), Right(Bound1(), map[1 := [HELLO]]), [], [REPLY, GREETING]) }
  function S4(): Sys { Sys(Left(map[], map[1 := []]), Right(Bound1(), map[1 := [HELLO]]), [], [REPLY, GREETING]) }
  function S5(): Sys { Sys(Left(Waiting(), map[1 := []]), Right(Bound1(), map[1 := [HELLO]]), [REQUEST], [REPLY, GREETING]) }
  function S6(): Sys { Sys(Left(Bound1(), map[1 := []]), Right(Bound1(), map[1 := [HELLO]]), [REQUEST], [GREETING]) }
  function S7(): Sys { Sys(Left(Bound1(), map[1 := [HELLO]]), Right(Bound1(), map[1 := [HELLO]]), [REQUEST], []) }
  function S8(): Sys {
    Sys(Left(Bound1(), map[1 := [HELLO]]),
        Peer(Bound1()[2 := Chan(User, 1, Open)], map[1 := [HELLO], 2 := []], map[1 := [], 2 := []], map[1 := Open, 2 := Open], map[1 := 1, 2 := 1]),
        [], [Frame(CONFIRMATION, 0, 1, 2, [])])
  }

  lemma LeftStep(x: Sys, act: Act)
    requires Enabled(x, act)
    ensures Step(x, StepLeft(x, act), false)
  {
  }

  lemma RightStep(x: Sys, act: Act)
    requires Enabled(Swap(x), act)
    ensures Step(x, StepRight(x, act), false)
  {
    assert Swap(StepRight(x, act)) == StepLeft(Swap(x), act);
  }

  lemma First()
    ensures Step(Start, S1(), false)
  {
    LeftStep(Start, OpenOne());
    assert StepLeft(Start, OpenOne()) == S1();
  }

  /** The right end accepts the request under id `n`. */
  lemma RightAccepts(x: Sys, n: nat)
    requires x.lr != [] && x.lr[0] == REQUEST && n > 0 && n !in x.r.table
    ensures StepRight(x, Get(Some(n))) == Swap(WithAccepted(WithNewId(Swap(x), n), n, User, 1))
  {
    RequestEffect(Swap(x), Env(false, Some(n), true, true, true));
  }

  lemma Second()
    ensures Step(S1(), S2(), false)
  {
    RightStep(S1(), Get(Some(1)));
    RightAccepts(S1(), 1);
    assert Swap(WithAccepted(WithNewId(Swap(S1()), 1), 1, User, 1)) == S2();
  }

  lemma Third()
    ensures Step(S2(), S3(), false)
  {
    RightStep(S2(), WriteAct(1, HELLO, true));
    assert Log(S2().r.written, 1) + [HELLO] == [HELLO];
    assert Wrote(S2().r, 1, HELLO).written == map[1 := [HELLO]];
    assert StepRight(S2(), WriteAct(1, HELLO, true)) == S3();
  }

  lemma Fourth()
    ensures Step(S3(), S4(), false)
  {
    LeftStep(S3(), CloseAct(1, true));
    assert StepLeft(S3(), CloseAct(1, true)) == S4();
  }

  lemma Fifth()
    ensures Step(S4(), S5(), false)
  {
    LeftStep(S4(), OpenOne());
    assert StepLeft(S4(), OpenOne()) == S5();
  }

  lemma Sixth()
    ensures Step(S5(), S6(), false)
  {
    LeftStep(S5(), Get(None));
    assert StepLeft(S5(), Get(None)) == S6();
  }

  lemma SeventhPeer()
    ensures Arrived(S6().l, GREETING) == S7().l
  {
    assert Log(S6().l.delivered, 1) + [HELLO] == [HELLO];
    assert Took(S6().l, 1, HELLO).delivered == map[1 := [HELLO]];
  }

  lemma Seventh()
    ensures Step(S6(), S7(), false)
  {
    LeftStep(S6(), Get(None));
    ArriveEffect(S6(), Env(false, None, true, true, true));
    SeventhPeer();
  }

  lemma EighthState()
    ensures Swap(WithAccepted(WithNewId(Swap(S7()), 2), 2, User, 1)) == S8()
  {
    assert Forget(S7().r, 2) == Peer(Bound1(), S8().r.written, S8().r.delivered, S8().r.asked, map[1 := 1]);
  }

  lemma Eighth()
    ensures Step(S7(), S8(), false)
  {
    RightStep(S7(), Get(Some(2)));
    RightAccepts(S7(), 2);
    EighthState();
  }

  function State(i: nat): Sys {
    match i
    case 0 => Start
    case 1 => S1()
    case 2 => S2()
    case 3 => S3()
    case 4 => S4()
    case 5 => S5()
    case 6 => S6()
    case 7 => S7()
    case _ => S8()
  }

  function Trace(): seq<Sys> { seq(9, i requires i >= 0 => State(i)) }

  lemma StateStep(i: nat)
    requires i < 8
    ensures Step(State(i), State(i + 1), false)
  {
    match i
    case 0 => First();
    case 1 => Second();
    case 2 => Third();
    case 3 => Fourth();
    case 4 => Fifth();
    case 5 => Sixth();
    case 6 => Seventh();
    case _ => Eighth();
  }

  /** Two right channels end up bound to left channel 1, which got data meant for its predecessor. */
  lemma RecyclingBreaksPairing()
    ensures Run(Trace(), false)
    ensures var x := Trace()[8];
            && x.l.table == map[1 := Chan(User, 1, Open)]
            && x.r.table == map[1 := Chan(User, 1, Open), 2 := Chan(User, 1, Open)]
            && Log(x.l.delivered, 1) == [HELLO] && Log(x.r.written, 2) == []
  {
    forall i | 0 <= i < 8 ensures Step(Trace()[i], Trace()[i + 1], false) {
      StateStep(i);
    }
  }
}
