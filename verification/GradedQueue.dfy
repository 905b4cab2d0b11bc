/** The queue between packing and grading (scripts/graph_v2_grade.py): the batches that `batches` packs ask exactly the
    questions of the queue, so a combine of their answers judges exactly the queue. */
module GradedQueue {
  import opened Wrappers
  import opened Packing
  import Grading

  function IdsOf(items: seq<Item>): set<string> { set item | item in items :: item.id }

  /** The questions of each batch. */
  function QuestionsOf(capsules: seq<Capsule>): Grading.Questions {
    if capsules == [] then [] else [IdsOf(capsules[0].items)] + QuestionsOf(capsules[1..])
  }

  lemma IdsOfJoined(a: seq<Item>, b: seq<Item>)
    ensures IdsOf(a + b) == IdsOf(a) + IdsOf(b)
  {
    assert forall item :: item in a + b <==> item in a || item in b;
  }

  lemma {:induction false} QuestionsOfJoined(a: seq<Capsule>, b: seq<Capsule>)
    ensures Grading.AllQuestions(QuestionsOf(a + b))
            == Grading.AllQuestions(QuestionsOf(a)) + Grading.AllQuestions(QuestionsOf(b))
    decreases |a|
  {
    if a == [] {
      assert a + b == b;
    } else {
      assert (a + b)[0] == a[0] && (a + b)[1..] == a[1..] + b;
      QuestionsOfJoined(a[1..], b);
    }
  }

  lemma {:induction false} QuestionsOfParts(kind: Kind, parts: seq<seq<Item>>)
    ensures Grading.AllQuestions(QuestionsOf(Capsules(kind, parts))) == IdsOf(Flatten(parts))
    decreases |parts|
  {
    if parts != [] {
      assert Capsules(kind, parts)[1..] == Capsules(kind, parts[1..]);
      QuestionsOfParts(kind, parts[1..]);
      IdsOfJoined(parts[0], Flatten(parts[1..]));
    }
  }

  lemma {:induction false} KindsAreAll(queue: seq<Item>)
    ensures IdsOf(OfKind(queue, Real)) + IdsOf(OfKind(queue, Semantic)) == IdsOf(queue)
    decreases |queue|
  {
    if queue != [] {
      var n := |queue| - 1;
      KindsAreAll(queue[..n]);
      assert queue == queue[..n] + [queue[n]];
      IdsOfJoined(queue[..n], [queue[n]]);
      IdsOfJoined(OfKind(queue[..n], Real), [queue[n]]);
      IdsOfJoined(OfKind(queue[..n], Semantic), [queue[n]]);
    }
  }

  /** The batches ask exactly the questions of the queue. */
  lemma BatchesAskTheQueue(queue: seq<Item>, size: Size)
    requires PackQueue(queue, size).Ok?
    ensures Grading.AllQuestions(QuestionsOf(PackQueue(queue, size).value)) == IdsOf(queue)
  {
    var first := Pack(Real, OfKind(queue, Real), size).value;
    var second := Pack(Semantic, OfKind(queue, Semantic), size).value;
    PackPartitions(Real, OfKind(queue, Real), size);
    PackPartitions(Semantic, OfKind(queue, Semantic), size);
    QuestionsOfParts(Real, first);
    QuestionsOfParts(Semantic, second);
    QuestionsOfJoined(Capsules(Real, first), Capsules(Semantic, second));
    KindsAreAll(queue);
  }

  /** A successful combine over the packed batches has a verdict for exactly the questions of the queue, each from one
      batch. */
  lemma VerdictsCoverTheQueue(queue: seq<Item>, size: Size, g: Grading.Ledgers, bound: nat -> bool)
    requires PackQueue(queue, size).Ok?
    requires Grading.Inv(g, QuestionsOf(PackQueue(queue, size).value))
    requires Grading.CombineFrom(g, 0, map[], {}, bound, QuestionsOf(PackQueue(queue, size).value)).verdicts.Some?
    ensures var q := QuestionsOf(PackQueue(queue, size).value);
            && Grading.CombineFrom(g, 0, map[], {}, bound, q).verdicts.value.Keys == IdsOf(queue)
            && forall j, k :: 0 <= j < k < |q| ==> q[j] * q[k] == {}
  {
    BatchesAskTheQueue(queue, size);
    Grading.CombinedVerdicts(g, bound, QuestionsOf(PackQueue(queue, size).value));
  }
}
