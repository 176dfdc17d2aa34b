/** The list of actions that a contract's run leaves: stored newest first, reported in send order. */
module OutActions {
  import opened Basics
  import opened Slices

  /** The message of a send action, as far as it parses. */
  datatype Message = Unparsed | InternalMessage(to: Option<nat>, amount: nat, body: Option<nat>) | ExternalOut

  /** An action: its tag, and the mode and message that follow the tag if it is a send. */
  datatype Action = Action(tag: nat, mode: Option<nat>, message: Message)

  /** The cell of an out_list: none, the empty terminator, one that cannot be read as a node, or a node with
      the list before it and the newest action. */
  datatype OutList = Missing | EmptyCell | Malformed | Node(prev: OutList, action: Action)

  datatype Entry = SendEntry(mode: Option<nat>, message: Message) | OtherEntry

  const SEND_MSG: nat := 0x0ec3c86d

  /** A send, by its tag, is reported with its mode and message, any other action as such only. */
  function Describe(a: Action): (e: Entry)
    ensures e.SendEntry? <==> a.tag == 0x0ec3c86d
    ensures e.SendEntry? ==> e.mode == a.mode && e.message == a.message
  {
    if a.tag == SEND_MSG then SendEntry(a.mode, a.message) else OtherEntry
  }

  function DescribeAll(actions: seq<Action>): (entries: seq<Entry>)
    ensures |entries| == |actions| && forall i :: 0 <= i < |actions| ==> entries[i] == Describe(actions[i])
  {
    seq(|actions|, i requires 0 <= i < |actions| => Describe(actions[i]))
  }

  /** The list that sending these actions in order leaves on top of another. */
  function Pushed(root: OutList, actions: seq<Action>): OutList {
    if actions == [] then root else Node(Pushed(root, actions[..|actions| - 1]), actions[|actions| - 1])
  }

  /** The entries as the loop meets them, newest first. */
  function NewestFirst(list: OutList): seq<Entry> {
    if list.Node? then [Describe(list.action)] + NewestFirst(list.prev) else []
  }

  function Depth(list: OutList): nat { if list.Node? then 1 + Depth(list.prev) else 0 }

  /** parseOutActions: walk from the newest action back to the terminator, or as far as the cells can be
      read, then reverse in place. */
  method ParseOutActions(actions: OutList) returns (out: seq<Entry>)
    ensures out == Reversed(NewestFirst(actions))
  {
    hide Reversed;
    var entries: seq<Entry> := [];
    var cur := actions;
    while cur != Missing
      invariant entries + NewestFirst(cur) == NewestFirst(actions)
      decreases Depth(cur), if cur.Missing? then 0 else 1
    {
      if cur.EmptyCell? {
        break;
      }
      if cur.Malformed? {
        break;
      }
      var action, prev := cur.action, cur.prev;
      assert entries + NewestFirst(cur) == (entries + [Describe(action)]) + NewestFirst(prev);
      if action.tag == SEND_MSG {
        entries := entries + [SendEntry(action.mode, action.message)];
      } else {
        entries := entries + [OtherEntry];
      }
      cur := prev;
    }
    out := ToSendOrder(entries);
  }

  method ToSendOrder(entries: seq<Entry>) returns (out: seq<Entry>)
    ensures out == Reversed(entries)
  {
    var a := new Entry[|entries|](i requires 0 <= i < |entries| => entries[i]);
    assert a[..] == entries;
    ReverseInPlace(a);
    out := a[..];
  }

  lemma {:induction false} ReversedSnoc<T>(x: T, s: seq<T>)
    ensures Reversed([x] + s) == Reversed(s) + [x]
  {
    if s == [] {
    } else {
      assert ([x] + s)[..|s|] == [x] + s[..|s| - 1];
      ReversedSnoc(x, s[..|s| - 1]);
    }
  }

  /** One entry per action in send order: parsing undoes the newest-first list. What cannot be read only
      hides the actions before it. */
  lemma {:induction false} ParsedInSendOrder(root: OutList, actions: seq<Action>)
    requires !root.Node?
    ensures Reversed(NewestFirst(Pushed(root, actions))) == DescribeAll(actions)
  {
    if actions != [] {
      var front, last := actions[..|actions| - 1], actions[|actions| - 1];
      ParsedInSendOrder(root, front);
      ReversedSnoc(Describe(last), NewestFirst(Pushed(root, front)));
      assert DescribeAll(actions) == DescribeAll(front) + [Describe(last)];
    }
  }

  /** Every list is some actions on top of a terminator or an unreadable cell, so the lemma above covers all
      inputs. */
  lemma {:induction false} EveryListIsPushed(list: OutList) returns (root: OutList, actions: seq<Action>)
    ensures !root.Node? && list == Pushed(root, actions)
    decreases Depth(list)
  {
    if !list.Node? {
      root, actions := list, [];
    } else {
      root, actions := EveryListIsPushed(list.prev);
      assert (actions + [list.action])[..|actions|] == actions;
      actions := actions + [list.action];
    }
  }
}
