/**
 The state of a GSM cell as the objects of 2018-fibers/src/channel.c: a bitmap in an array of words
 and a doubly linked list of channels, newest first.  The methods compute the functions of `Gsm`.
 */
module GsmCell {
  import opened ChannelBits
  import G = Gsm

  class Channel {
    const channelId: int
    var next: Channel?
    var prev: Channel?

    constructor (id: int, prev: Channel?)
      ensures channelId == id && this.next == null && this.prev == prev
    {
      channelId := id;
      this.next := null;
      this.prev := prev;
    }
  }

  const WORDS := 64

  class Cell {
    var channelCounter: nat
    var arrivingCalls: nat
    var completeCalls: nat
    var blockedOnSetup: nat
    var executedEvents: nat
    var lvt: real
    const channelState: array<bv32>
    var channels: Channel?
    /** The channels from `channels` on along `prev`. */
    ghost var list: seq<Channel>
    /** All channels ever linked. */
    ghost var nodes: set<Channel>

    ghost predicate LinkedAt(i: nat)
      reads this`list, list
      requires i < |list|
    {
      && list[i].prev == (if i + 1 < |list| then list[i + 1] else null)
      && list[i].next == (if i > 0 then list[i - 1] else null)
    }

    ghost predicate Linked()
      reads this`list, this`channels, list
    {
      && (forall i, j :: 0 <= i < j < |list| ==> list[i] != list[j])
      && channels == (if list == [] then null else list[0])
      && (forall i {:trigger LinkedAt(i)} :: 0 <= i < |list| ==> LinkedAt(i))
    }

    ghost predicate Valid()
      reads this`list, this`channels, this`nodes, nodes
    {
      (forall c :: c in list ==> c in nodes) && Linked() && channelState.Length == WORDS
    }

    ghost function Ids(): seq<int>
      reads this`list
    {
      var l := list;
      seq(|l|, i requires 0 <= i < |l| => l[i].channelId)
    }

    ghost function Abs(): G.State
      reads this, channelState
      requires channelState.Length == WORDS
    {
      G.State(channelCounter, arrivingCalls, completeCalls, blockedOnSetup, executedEvents, lvt,
              BusyBelow(channelState[..], G.CHANNELS_PER_CELL), Ids())
    }

    /** The state INIT sets up. */
    constructor ()
      ensures Valid() && fresh(channelState) && nodes == {} && Abs() == G.InitialState
    {
      channelCounter := G.CHANNELS_PER_CELL;
      arrivingCalls, completeCalls, blockedOnSetup, executedEvents, lvt := 0, 0, 0, 0, 0.0;
      channelState := new bv32[WORDS];
      channels := null;
      list := [];
      nodes := {};
      new;
      var i := 0;
      while i < channelCounter / BITS + 1
        invariant 0 <= i <= 32 && channelCounter == G.CHANNELS_PER_CELL
        invariant forall k :: 0 <= k < i ==> channelState[k] == 0
        modifies channelState
      {
        channelState[i] := 0;
        i := i + 1;
      }
      BusyOfZeros(channelState[..], G.CHANNELS_PER_CELL);
    }

    /** The bitmap changes, the list does not. */
    method SetBusy(i: nat)
      requires Valid() && i < G.CHANNELS_PER_CELL
      modifies channelState
      ensures Valid() && Abs() == old(Abs()).(busy := old(Abs()).busy + {i})
    {
      BusyAfterSet(channelState[..], G.CHANNELS_PER_CELL, i);
      channelState[i / BITS] := SetBit(channelState[i / BITS], i % BITS);
      assert channelState[..] == SetChannel(old(channelState[..]), i);
    }

    method ResetBusy(i: nat)
      requires Valid() && i < G.CHANNELS_PER_CELL
      modifies channelState
      ensures Valid() && Abs() == old(Abs()).(busy := old(Abs()).busy - {i})
    {
      BusyAfterReset(channelState[..], G.CHANNELS_PER_CELL, i);
      channelState[i / BITS] := ResetBit(channelState[i / BITS], i % BITS);
      assert channelState[..] == ResetChannel(old(channelState[..]), i);
    }

    /** Link a new channel before the others. */
    method Push(index: int)
      requires Valid()
      modifies this`channels, this`list, this`nodes, nodes
      ensures Valid() && |list| > 0 && fresh(list[0]) && list[1..] == old(list) && nodes == old(nodes) + {list[0]}
      ensures Abs() == old(Abs()).(channels := [index] + old(Abs()).channels)
    {
      var c := new Channel(index, channels);
      if channels != null {
        channels.next := c;
      }
      channels := c;
      list := [c] + list;
      nodes := nodes + {c};
      forall k | 0 <= k < |list| ensures LinkedAt(k) {
        if k > 0 {
          assert old(LinkedAt(k - 1));
        }
      }
      assert Ids() == [index] + old(Ids());
    }

    /** The scan of the bitmap for a free channel. */
    method FindFree() returns (index: int)
      requires Valid()
      ensures var c := G.FirstFree(Abs().busy, 0); index == if c == G.CHANNELS_PER_CELL then -1 else c
    {
      hide BusyBelow;
      index := -1;
      var i := 0;
      while i < G.CHANNELS_PER_CELL
        invariant 0 <= i <= G.CHANNELS_PER_CELL && index == -1
        invariant G.FirstFree(Abs().busy, i) == G.FirstFree(Abs().busy, 0)
      {
        if !CheckChannel(channelState[..], i) {
          index := i;
          break;
        }
        i := i + 1;
      }
    }

    method Allocation() returns (index: int)
      requires Valid()
      modifies this`channels, this`list, this`nodes, channelState, nodes
      ensures Valid() && fresh(nodes - old(nodes))
      ensures match G.Allocation(old(Abs()))
        case None => index == -1 && Abs() == old(Abs())
        case Some(r) => index >= 0 && (Abs(), index) == r
    {
      hide BusyBelow, Linked, G.FirstFree;
      index := FindFree();
      if index != -1 {
        SetBusy(index);
        Push(index);
      }
    }

    /** The pointers around c, the i-th channel of the list. */
    method Relink(c: Channel, ghost i: nat)
      requires Valid() && i < |list| && list[i] == c
      modifies this`channels, this`list, nodes
      ensures Valid() && list == old(list[..i] + list[i + 1..])
    {
      assert LinkedAt(i) && LinkedAt(0);
      assert i > 0 ==> LinkedAt(i - 1);
      assert i + 1 < |list| ==> LinkedAt(i + 1);
      if c == channels {
        channels := c.prev;
        if channels != null {
          channels.next := null;
        }
      } else {
        if c.next != null {
          c.next.prev := c.prev;
        }
        if c.prev != null {
          c.prev.next := c.next;
        }
      }
      list := list[..i] + list[i + 1..];
      forall k | 0 <= k < |list| ensures LinkedAt(k) {
        assert old(LinkedAt(if k < i then k else k + 1));
      }
    }

    /** Take c, the i-th channel of the list, out of it. */
    method Unlink(c: Channel, ghost i: nat)
      requires Valid() && i < |list| && list[i] == c
      modifies this`channels, this`list, nodes
      ensures Valid() && list == old(list[..i] + list[i + 1..])
      ensures Abs() == old(Abs()).(channels := old(Abs()).channels[..i] + old(Abs()).channels[i + 1..])
    {
      hide BusyBelow, Linked;
      ghost var ids := Ids();
      Relink(c, i);
      assert Ids() == ids[..i] + ids[i + 1..];
    }

    /** The search through the list; i is the position of the channel found. */
    method Find(ch: int) returns (c: Channel?, ghost i: nat)
      requires Valid()
      ensures i == G.IndexOf(Ids(), ch, 0)
      ensures c == if G.IndexOf(Ids(), ch, 0) == |list| then null else list[G.IndexOf(Ids(), ch, 0)]
    {
      c := channels;
      i := 0;
      while c != null
        invariant 0 <= i <= |list| && c == (if i == |list| then null else list[i])
        invariant G.IndexOf(Ids(), ch, i) == G.IndexOf(Ids(), ch, 0)
        decreases |list| - i
      {
        if c.channelId == ch {
          break;
        }
        assert LinkedAt(i);
        c := c.prev;
        i := i + 1;
      }
    }

    method Deallocation(ch: int) returns (ok: bool)
      requires Valid() && G.InRange(Ids())
      modifies this`channels, this`list, channelState, nodes
      ensures Valid()
      ensures match G.Deallocation(old(Abs()), ch)
        case None => !ok && Abs() == old(Abs())
        case Some(r) => ok && Abs() == r
    {
      ghost var ids := Ids();
      ghost var i;
      var c;
      c, i := Find(ch);
      assert Ids() == ids;
      if c != null {
        assert ids[i] == ch;
        assert ch in ids;
        Unlink(c, i);
        ResetBusy(ch);
        ok := true;
      } else {
        ok := false;
      }
    }
  }
}
