/** `list.c`: a singly linked heap list with head and tail pointers and a 16-bit count. */
module TaskLists {
  import opened Bytes

  const WRAP: nat := 0x1_0000

  /** Whether `List_GetHead` shows a node: the count, not the head pointer, decides when it has wrapped to 0. */
  predicate Shows<T>(q: seq<T>) {
    |q| % WRAP != 0
  }

  /** What `List_DelHead` leaves. A count that reaches 0 empties the list even when nodes remain. */
  function AfterDelete<T>(q: seq<T>): seq<T> {
    if |q| % WRAP == 0 then q else if |q| % WRAP == 1 then [] else q[1..]
  }

  /** The list behaves as a sequence at its head exactly when its length is small, or not 0 or 1 modulo 65536. */
  lemma {:induction false} HeadFaithfulIff<T>(q: seq<T>)
    ensures (Shows(q) <==> q != []) && AfterDelete(q) == (if q == [] then [] else q[1..])
            <==> |q| < 2 || |q| % 65536 >= 2
  {
    if |q| >= 2 && |q| % WRAP == 1 {
      assert q[1..] != [];
    }
  }

  datatype ListOp<T> = Insert(x: T) | Delete

  /** The list after a run of operations, by the code's rules. */
  function Run<T>(ops: seq<ListOp<T>>): seq<T> {
    if ops == [] then []
    else
      var q := Run(ops[..|ops| - 1]);
      match ops[|ops| - 1]
      case Insert(x) => q + [x]
      case Delete => AfterDelete(q)
  }

  /** What was inserted, and how many deletions found something. */
  function Inserted<T>(ops: seq<ListOp<T>>): seq<T> {
    if ops == [] then []
    else Inserted(ops[..|ops| - 1]) + (match ops[|ops| - 1] case Insert(x) => [x] case Delete => [])
  }

  function Removed<T>(ops: seq<ListOp<T>>): nat {
    if ops == [] then 0
    else
      var front := ops[..|ops| - 1];
      Removed(front) + (if ops[|ops| - 1].Delete? && Run(front) != [] then 1 else 0)
  }

  lemma BelowWrap<T>(ops: seq<ListOp<T>>)
    requires ops != [] && |Run(ops[..|ops| - 1])| < WRAP
    ensures var front, q := ops[..|ops| - 1], Run(ops[..|ops| - 1]);
      Run(ops) == match ops[|ops| - 1] case Insert(x) => q + [x] case Delete => if q == [] then [] else q[1..]
  {
    var q := Run(ops[..|ops| - 1]);
    if q != [] {
      assert |q| % WRAP == |q|;
    }
  }

  /**
   * As long as fewer than 65536 nodes are ever live, the list is a FIFO: inserted items less those removed, in
   * order.
   */
  lemma {:induction false} FifoBelowWrap<T>(ops: seq<ListOp<T>>)
    requires forall k | 0 <= k <= |ops| :: |Run(ops[..k])| < 65536
    ensures Removed(ops) <= |Inserted(ops)| && Run(ops) == Inserted(ops)[Removed(ops)..]
  {
    if ops != [] {
      var front := ops[..|ops| - 1];
      forall k | 0 <= k <= |front| ensures |Run(front[..k])| < WRAP {
        assert front[..k] == ops[..k];
      }
      FifoBelowWrap(front);
      BelowWrap(ops);
    }
  }

  /** Items inserted into an empty list stand there in the order of their insertion. */
  lemma {:induction false} InsertsStandInOrder<T>(xs: seq<T>)
    ensures Run(seq(|xs|, i requires 0 <= i < |xs| => Insert(xs[i]))) == xs
  {
    var ops := seq(|xs|, i requires 0 <= i < |xs| => Insert(xs[i]));
    if xs != [] {
      var front := xs[..|xs| - 1];
      InsertsStandInOrder(front);
      assert ops[..|xs| - 1] == seq(|front|, i requires 0 <= i < |front| => Insert(front[i]));
    }
  }

  class ListNode<T> {
    var next: ListNode?<T>
    var arg: T

    constructor (arg: T)
      ensures this.arg == arg && next == null
    {
      this.arg := arg;
      next := null;
    }
  }

  class TaskList<T> {
    var pHead: ListNode?<T>
    var pTail: ListNode?<T>
    var count: uint16
    /** The nodes from head to tail. */
    ghost var spine: seq<ListNode<T>>

    ghost predicate Valid()
      reads this, spine
    {
      && (spine == [] ==> pHead == null && pTail == null)
      && (spine != [] ==> pHead == spine[0] && pTail == spine[|spine| - 1] && pTail.next == null)
      && (forall i | 0 <= i < |spine| - 1 :: spine[i].next == spine[i + 1])
      && (forall i, j | 0 <= i < j < |spine| :: spine[i] != spine[j])
      && count == |spine| % WRAP
    }

    ghost function Contents(): seq<T>
      reads this, spine
    {
      var s := spine;
      seq(|s|, i requires 0 <= i < |s| reads s => s[i].arg)
    }

    /** `List_Init`. */
    constructor ()
      ensures Valid() && spine == [] && Contents() == []
    {
      pHead, pTail, count, spine := null, null, 0, [];
    }

    /** `List_Insert`; `allocOk` is the answer of `malloc`. */
    method Insert(arg: T, allocOk: bool) returns (ret: int)
      requires Valid()
      modifies this, spine
      ensures Valid() && |old(spine)| <= |spine| && fresh(spine[|old(spine)|..])
      ensures ret == if allocOk then 0 else -1
      ensures Contents() == if allocOk then old(Contents()) + [arg] else old(Contents())
      ensures spine[..|old(spine)|] == old(spine)
    {
      if !allocOk {
        return -1;
      }
      var node := new ListNode<T>(arg);
      if pHead == null {
        pHead := node;
        pTail := node;
      } else {
        pTail.next := node;
        pTail := node;
      }
      count := (count + 1) % WRAP;
      spine := spine + [node];
      return 0;
    }

    /** `List_GetHead`. */
    method GetHead() returns (node: ListNode?<T>)
      requires Valid()
      ensures node != null <==> Shows(Contents())
      ensures node != null ==> spine != [] && node == spine[0] && node.arg == Contents()[0]
    {
      if count <= 0 || pHead == null {
        return null;
      }
      return pHead;
    }

    /** `List_DelHead`. */
    method DelHead() returns (ret: int)
      requires Valid()
      modifies this
      ensures Valid()
      ensures ret == if Shows(old(Contents())) then 0 else -1
      ensures Contents() == AfterDelete(old(Contents()))
      ensures forall n <- spine :: n in old(spine)
    {
      if count <= 0 || pHead == null {
        return -1;
      }
      pHead := pHead.next;
      count := count - 1;
      spine := spine[1..];
      assert |old(spine)| % WRAP != 0 && count == |spine| % WRAP;
      if count == 0 {
        pHead := null;
        pTail := null;
        spine := [];
      }
      return 0;
    }
  }
}
