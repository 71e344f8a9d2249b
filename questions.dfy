/** Building the outward question of a round from a fetched provider result
    (game/Game.js, createQuestion and assignQuestion). */
module Questions {

  import opened Wrappers

  /** One already fetched provider result: the prompt, the wrong answers and
      the right one. */
  datatype Payload = Payload(question: string, incorrectAnswers: seq<string>, correctAnswer: string)

  /** The question object: prompt, answers in shown order, and the correct
      index, a field that is absent (None) while the question is hidden. */
  datatype Question = Question(prompt: string, answers: seq<string>, correctAnswer: Option<int>)

  /** `incorrect_answers.concat(correct_answer)`: the answers before shuffling. */
  function AnswerPool(u: Payload): (pool: seq<string>)
  {
    u.incorrectAnswers + [u.correctAnswer]
  }

  /** `order` lists every position of a sequence of length n exactly once. */
  predicate IsPermutation(order: seq<int>, n: nat)
  {
    && |order| == n
    && (forall i :: 0 <= i < n ==> 0 <= order[i] < n)
    && (forall i, j :: 0 <= i < j < n ==> order[i] != order[j])
  }

  /** The sequence `s` rearranged so that position i shows `s[order[i]]`. */
  function Gather(s: seq<string>, order: seq<int>): (r: seq<string>)
    requires IsPermutation(order, |s|)
  {
    seq(|s|, i requires 0 <= i < |s| => s[order[i]])
  }

  /** Rearranging by a permutation keeps every element with its multiplicity. */
  lemma {:induction false} GatherIsPermutation(s: seq<string>, order: seq<int>)
    requires IsPermutation(order, |s|)
    ensures multiset(Gather(s, order)) == multiset(s)
  {
    var n := |s|;
    if n > 0 {
      var m := order[n - 1];
      var rest := s[..m] + s[m + 1..];
      var shifted := seq(n - 1, i requires 0 <= i < n - 1 => if order[i] > m then order[i] - 1 else order[i]);
      assert forall i :: 0 <= i < n - 1 ==> order[i] != m by {
        forall i | 0 <= i < n - 1 ensures order[i] != m {
          assert order[i] != order[n - 1];
        }
      }
      assert IsPermutation(shifted, n - 1);
      GatherIsPermutation(rest, shifted);
      var g := Gather(s, order);
      assert g[..n - 1] == Gather(rest, shifted);
      assert g == g[..n - 1] + [s[m]];
      assert s == s[..m] + [s[m]] + s[m + 1..];
      calc {
        multiset(g);
        multiset(g[..n - 1]) + multiset{s[m]};
        multiset(rest) + multiset{s[m]};
        multiset(s[..m]) + multiset(s[m + 1..]) + multiset{s[m]};
        multiset(s);
      }
    }
  }

  /** `Array.prototype.indexOf`: the first position of `x` in `s`, or -1. */
  function IndexOf(s: seq<string>, x: string): (i: int)
    ensures -1 <= i < |s|
    ensures i == -1 <==> x !in s
    ensures 0 <= i ==> s[i] == x && x !in s[..i]
  {
    if s == [] then -1
    else if s[0] == x then 0
    else
      var k := IndexOf(s[1..], x);
      assert s[1..][..k + 1] == s[1..k + 2];
      if k == -1 then -1 else k + 1
  }

  /** `createQuestion` once the fetch has produced the valid result `u` and
      the shuffle has chosen `order`: the answers are the shuffled pool and
      the correct index is where the correct answer first shows. */
  function CreateQuestion(u: Payload, order: seq<int>): (q: Question)
    requires IsPermutation(order, |AnswerPool(u)|)
    ensures q.prompt == u.question
    ensures |q.answers| == |AnswerPool(u)| && multiset(q.answers) == multiset(AnswerPool(u))
    ensures forall i :: 0 <= i < |q.answers| ==> q.answers[i] == AnswerPool(u)[order[i]]
    ensures q.correctAnswer.Some?
    ensures 0 <= q.correctAnswer.value < |q.answers|
    ensures q.answers[q.correctAnswer.value] == u.correctAnswer
    ensures u.correctAnswer !in q.answers[..q.correctAnswer.value]
  {
    var pool := AnswerPool(u);
    var answers := Gather(pool, order);
    GatherIsPermutation(pool, order);
    assert u.correctAnswer in multiset(pool) by {
      assert pool[|pool| - 1] == u.correctAnswer;
    }
    Question(u.question, answers, Some(IndexOf(answers, u.correctAnswer)))
  }

  /** When the correct answer is not also among the wrong ones, the stored
      index is exactly the shown position the shuffle moved it to. */
  lemma CorrectIndexFollowsShuffle(u: Payload, order: seq<int>)
    requires IsPermutation(order, |AnswerPool(u)|)
    requires u.correctAnswer !in u.incorrectAnswers
    ensures order[CreateQuestion(u, order).correctAnswer.value] == |u.incorrectAnswers|
  {
  }
}
