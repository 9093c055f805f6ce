/**
 A concrete insert-before that chunking changes: two large values, the first of them equal to
 the pivot. Both do not fit one request, and the second chunk finds the inserted copy first.
 */
module PivotCaptured {
  import opened Basics
  import opened Wire
  import opened Messages
  import opened Chunker
  import opened Batching
  import opened PlanTheorems
  import opened Containers
  import opened Meaning
  import opened InsertBefore
  import opened LargeRequests

  const BODY: uint32 := 1_250_000
  const RECORD: nat := BODY + 20   // a value as a record of a request

  /** Insert one value of ones and one of twos before the first value of ones, as the client asks for it. */
  function Both(): Request {
    AddToVal(SMALL_KEY, Some(0), true, Large(BODY, 1), [Large(BODY, 1), Large(BODY, 2)])
  }

  lemma MiddleVarint(n: nat)
    requires 16384 <= n < 2097152
    ensures |Varint(n)| == 3
  {
    assert |Varint(n / 128 / 128)| == 1;
    assert |Varint(n / 128)| == 2;
  }

  lemma BodyWidth()
    ensures Width(BODY, 3)
  {
    MiddleVarint(BODY);
    MiddleVarint(BODY + 8);
    MiddleVarint(BODY + 16);
  }

  lemma BothItems()
    ensures ItemsOf(Both()) == Success([ValueItem(Large(BODY, 1)), ValueItem(Large(BODY, 2))])
    ensures !Positional(Both()) && !ReversesChunks(Both()) && InsertsBefore(Both())
    ensures Reserve(Cleared(Both()), false) == Cleared(Both())
    ensures Both().pivot.value.bytes == Filled(BODY, 1)
  {
    hide Large;
    var one, two := Large(BODY, 1), Large(BODY, 2);
    assert ValueItems([one, two]) == [ValueItem(one), ValueItem(two)];
    assert Both().pivot.value.bytes == Filled(BODY, 1) by { LargeBytes(1); }
  }

  lemma LargeBytes(b: byte)
    ensures Large(BODY, b).value.bytes == Filled(BODY, b)
  {
  }

  lemma BothHeader()
    ensures HeaderSize(Cleared(Both())) == RECORD + 10
  {
    hide EncodeKey, EncodeValue, Large, DelimitedSize, Width;
    BodyWidth();
    LargeSize(BODY, 1, 3);
    var k, pivot := Delimited(1, EncodeKey(SMALL_KEY)), Delimited(4, EncodeValue(Large(BODY, 1)));
    var ttl, before := Number(2, 0), Number(3, 1);
    assert HeaderFields(Cleared(Both())) == [k] + ([ttl] + ([before] + [pivot]));
    EncodeAppend([k], [ttl] + ([before] + [pivot]));
    EncodeAppend([ttl], [before] + [pivot]);
    EncodeAppend([before], [pivot]);
    KeyRecord();
    EncodeOne(k);
    EncodeOne(ttl);
    EncodeOne(before);
    EncodeOne(pivot);
  }

  lemma KeyRecord()
    ensures DelimitedSize(|EncodeKey(SMALL_KEY)|) == 6 && |Varint(0)| == 1 && |Varint(1)| == 1
  {
    SmallKeySize();
    assert |Varint(4)| == 1;
  }

  /** The request is planned as two chunks of one value each. */
  lemma PlannedInTwo()
    ensures PlanOf(Both(), false).Success?
    ensures var plan := PlanOf(Both(), false).value;
            && |plan| == 2
            && ItemsOf(plan[0].request) == Success([ValueItem(Large(BODY, 1))])
            && ItemsOf(plan[1].request) == Success([ValueItem(Large(BODY, 2))])
  {
    hide *;
    BothItems();
    BothSizes();
    TwoChunks(Both(), false, ValueItem(Large(BODY, 1)), ValueItem(Large(BODY, 2)));
    PlanReversal(Both(), false);
  }

  lemma BothSizes()
    ensures var base, one, two := HeaderSize(Cleared(Both())), ItemSize(ValueItem(Large(BODY, 1))),
                                  ItemSize(ValueItem(Large(BODY, 2)));
            base + one <= MAX_RPC_SIZE && base + two <= MAX_RPC_SIZE < base + one + two
  {
    hide HeaderSize, ItemSize, Large, Width;
    BodyWidth();
    BothHeader();
    LargeSize(BODY, 1, 3);
    LargeSize(BODY, 2, 3);
  }

  /** In a container that holds just the pivot the chunks leave the second value first. */
  lemma ChunkingInsertsElsewhere()
    ensures PlanOf(Both(), false).Success? && InsertsBefore(Both())
    ensures var plan, start := PlanOf(Both(), false).value, Sequence([Filled(BODY, 1)]);
            RunAll(AddByValue, plan, start) != Apply(AddByValue, Both(), start)
  {
    hide *;
    BothItems();
    PlannedInTwo();
    PlannedElementsIs(Both());
    ElementsInTwo(PlanOf(Both(), false).value);
    ChunkedInsertBefore(Both(), [Filled(BODY, 1)]);
    NotSafe();
  }

  lemma ElementsOfOne(b: byte)
    ensures Elements([ValueItem(Large(BODY, b))]) == [Filled(BODY, b)]
  {
    LargeBytes(b);
    hide Filled, Large;
    var items := [ValueItem(Large(BODY, b))];
    assert items[1..] == [] && Elements(items[1..]) == [];
    assert Element(items[0]) == [Filled(BODY, b)];
  }

  lemma TwoLists(a: seq<Item>, b: seq<Item>)
    ensures ElementLists([a, b]) == [Elements(a), Elements(b)]
  {
    hide Elements;
    assert [a, b][1..] == [b] && [b][1..] == [];
    assert ElementLists([b]) == [Elements(b)];
  }

  lemma ElementsInTwo(plan: seq<Planned>)
    requires |plan| == 2
    requires ItemsOf(plan[0].request) == Success([ValueItem(Large(BODY, 1))])
    requires ItemsOf(plan[1].request) == Success([ValueItem(Large(BODY, 2))])
    ensures ElementLists(ItemLists(plan)) == [[Filled(BODY, 1)], [Filled(BODY, 2)]]
  {
    hide ItemsOf, Filled, Large, Elements, ElementLists;
    ElementsOfOne(1);
    ElementsOfOne(2);
    TwoLists([ValueItem(Large(BODY, 1))], [ValueItem(Large(BODY, 2))]);
    assert ItemLists(plan) == [[ValueItem(Large(BODY, 1))], [ValueItem(Large(BODY, 2))]];
  }

  lemma NotSafe()
    ensures Filled(BODY, 1) != Filled(BODY, 2) && !PivotSafe([[Filled(BODY, 1)], [Filled(BODY, 2)]], Filled(BODY, 1))
    ensures Filled(BODY, 1) in [Filled(BODY, 1)]
  {
    var one, two := Filled(BODY, 1), Filled(BODY, 2);
    assert one[0] != two[0];
    hide Filled;
    var parts := [[one], [two]];
    assert parts[1..] == [[two]] && parts[1..][0] == [two] && [two] in parts[1..];
  }
}
