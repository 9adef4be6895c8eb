/** Option enrichment, shared by the test page (src/app/test/page.tsx) and
    the question card (src/components/QuestionCard.tsx): a question with a
    single option borrows up to three incorrect options from other questions.
    Each caller picks its own pool of other questions; both then run the same
    nested loop over the pool's option lists. The shuffles of the pool and of
    the combined list are taken as the identity. */
module Distractors {
  import opened Types
  import opened Text

  const AdditionalPrefix: string := "additional-"
  const MaxAdditional: nat := 3

  /** `options.filter(opt => !opt.isCorrect)`. */
  function Incorrect(os: seq<AnswerOption>): (r: seq<AnswerOption>)
    ensures |r| <= |os|
    ensures forall o :: o in r <==> o in os && !o.isCorrect
  {
    if os == [] then []
    else Incorrect(os[..|os| - 1]) + (if os[|os| - 1].isCorrect then [] else [os[|os| - 1]])
  }

  function TextsOf(os: seq<AnswerOption>): (ts: seq<string>)
    ensures |ts| == |os|
  {
    seq(|os|, j requires 0 <= j < |os| => os[j].text)
  }

  /** The texts of the incorrect options of each list, concatenated in pool order. */
  function PoolTexts(pool: seq<seq<AnswerOption>>): seq<string>
  {
    if pool == [] then [] else PoolTexts(pool[..|pool| - 1]) + TextsOf(Incorrect(pool[|pool| - 1]))
  }

  /** The id of the `n`-th borrowed option. */
  function AdditionalId(n: nat): string
  {
    AdditionalPrefix + NatToString(n)
  }

  /** Borrowed texts labelled `additional-1`, `additional-2`, ... */
  function Labelled(texts: seq<string>): (r: seq<AnswerOption>)
    ensures |r| == |texts|
  {
    seq(|texts|, j requires 0 <= j < |texts| => AnswerOption(AdditionalId(j + 1), texts[j], false))
  }

  function Take<T>(s: seq<T>, n: nat): (r: seq<T>)
    ensures r <= s && |r| == if |s| <= n then |s| else n
  {
    if |s| <= n then s else s[..n]
  }

  /** The options the loop collects: the first three borrowed texts, labelled. */
  function Borrowed(pool: seq<seq<AnswerOption>>): seq<AnswerOption>
  {
    Labelled(Take(PoolTexts(pool), MaxAdditional))
  }

  lemma LabelledSnoc(texts: seq<string>, t: string)
    ensures Labelled(texts + [t]) == Labelled(texts) + [AnswerOption(AdditionalId(|texts| + 1), t, false)]
  {
    var a := Labelled(texts + [t]);
    var b := Labelled(texts) + [AnswerOption(AdditionalId(|texts| + 1), t, false)];
    forall j | 0 <= j < |a| ensures a[j] == b[j] {
      if j < |texts| {
        assert (texts + [t])[j] == texts[j];
      } else {
        assert j == |texts|;
        assert (texts + [t])[j] == t;
      }
    }
  }

  lemma PoolTextsSnoc(pool: seq<seq<AnswerOption>>, i: nat)
    requires i < |pool|
    ensures PoolTexts(pool[..i + 1]) == PoolTexts(pool[..i]) + TextsOf(Incorrect(pool[i]))
  {
    assert pool[..i + 1][..i] == pool[..i];
  }

  /** The texts of a prefix of the pool come first in the texts of the pool. */
  lemma {:induction false} PoolTextsPrefix(pool: seq<seq<AnswerOption>>, i: nat)
    requires i <= |pool|
    ensures PoolTexts(pool[..i]) <= PoolTexts(pool)
    decreases |pool|
  {
    if i == |pool| {
      assert pool[..i] == pool;
    } else {
      var init := pool[..|pool| - 1];
      PoolTextsPrefix(init, i);
      assert init[..i] == pool[..i];
    }
  }

  /** One more incorrect option of list `qi` extends the collected texts by
      its text, and they stay a prefix of the pool's texts. */
  lemma NextTextInPool(pool: seq<seq<AnswerOption>>, qi: nat, oi: nat)
    requires qi < |pool| && oi < |Incorrect(pool[qi])|
    ensures var wrong := Incorrect(pool[qi]);
            PoolTexts(pool[..qi]) + TextsOf(wrong[..oi + 1])
            == PoolTexts(pool[..qi]) + TextsOf(wrong[..oi]) + [wrong[oi].text]
    ensures PoolTexts(pool[..qi]) + TextsOf(Incorrect(pool[qi])[..oi + 1]) <= PoolTexts(pool)
  {
    var wrong := Incorrect(pool[qi]);
    assert TextsOf(wrong[..oi + 1]) == TextsOf(wrong[..oi]) + [wrong[oi].text];
    assert TextsOf(wrong[..oi + 1]) <= TextsOf(wrong);
    PoolTextsSnoc(pool, qi);
    PoolTextsPrefix(pool, qi + 1);
  }

  /** Having gone through all of list `qi` covers the texts of the first
      `qi + 1` lists. */
  lemma ListDone(pool: seq<seq<AnswerOption>>, qi: nat)
    requires qi < |pool|
    ensures PoolTexts(pool[..qi]) + TextsOf(Incorrect(pool[qi])[..|Incorrect(pool[qi])|]) == PoolTexts(pool[..qi + 1])
  {
    var wrong := Incorrect(pool[qi]);
    assert wrong[..|wrong|] == wrong;
    PoolTextsSnoc(pool, qi);
  }

  /** Three collected texts that start the pool's texts are its first three;
      fewer that make up all of them are all of them. */
  lemma CollectedAreBorrowed(pool: seq<seq<AnswerOption>>, texts: seq<string>)
    requires texts <= PoolTexts(pool)
    requires |texts| == MaxAdditional || texts == PoolTexts(pool)
    requires |texts| <= MaxAdditional
    ensures Labelled(texts) == Borrowed(pool)
  {
  }

  /** The nested loop of `enrichOptionsWithAdditionalChoices`: for each list
      of the pool, each of its incorrect options is pushed with the next
      `additional-` id, and both loops stop once three are collected. */
  method CollectDistractors(pool: seq<seq<AnswerOption>>) returns (additional: seq<AnswerOption>)
    ensures additional == Borrowed(pool)
  {
    additional := [];
    ghost var texts: seq<string> := [];
    var qi := 0;
    while qi < |pool|
      invariant qi <= |pool|
      invariant additional == Labelled(texts)
      invariant texts == PoolTexts(pool[..qi]) && |texts| < MaxAdditional
    {
      var wrong := Incorrect(pool[qi]);
      ghost var before := texts;
      var oi := 0;
      while oi < |wrong|
        invariant oi <= |wrong|
        invariant additional == Labelled(texts) && |additional| == |texts| < MaxAdditional
        invariant texts == before + TextsOf(wrong[..oi])
      {
        LabelledSnoc(texts, wrong[oi].text);
        NextTextInPool(pool, qi, oi);
        additional := additional + [AnswerOption(AdditionalId(|additional| + 1), wrong[oi].text, false)];
        texts := texts + [wrong[oi].text];
        if |additional| >= MaxAdditional {
          break;
        }
        oi := oi + 1;
      }
      if |additional| >= MaxAdditional {
        CollectedAreBorrowed(pool, texts);
        return;
      }
      ListDone(pool, qi);
      qi := qi + 1;
    }
    assert pool[..qi] == pool;
    CollectedAreBorrowed(pool, texts);
  }

  /** What the enrichment returns: the current options when the pool is
      empty, else the current options followed by the borrowed ones. */
  function Enrich(current: seq<AnswerOption>, pool: seq<seq<AnswerOption>>): seq<AnswerOption>
  {
    if pool == [] then current else current + Borrowed(pool)
  }

  /** At most three options are added; they are all incorrect, carry the ids
      `additional-1..k` in order, and each has the text of an incorrect option
      of some list of the pool. */
  lemma BorrowedOptions(pool: seq<seq<AnswerOption>>)
    ensures |Borrowed(pool)| <= MaxAdditional
    ensures |Borrowed(pool)| == if |PoolTexts(pool)| <= MaxAdditional then |PoolTexts(pool)| else MaxAdditional
    ensures forall j :: 0 <= j < |Borrowed(pool)| ==>
              !Borrowed(pool)[j].isCorrect && Borrowed(pool)[j].id == AdditionalId(j + 1)
    ensures forall j :: 0 <= j < |Borrowed(pool)| ==>
              exists i, o :: 0 <= i < |pool| && o in pool[i] && !o.isCorrect && o.text == Borrowed(pool)[j].text
  {
    var ts := Take(PoolTexts(pool), MaxAdditional);
    var b := Borrowed(pool);
    assert b == Labelled(ts);
    forall j | 0 <= j < |b|
      ensures exists i, o :: 0 <= i < |pool| && o in pool[i] && !o.isCorrect && o.text == b[j].text
    {
      assert b[j].text == ts[j] == PoolTexts(pool)[j];
      PoolTextsFromPool(pool, j);
    }
  }

  /** Every borrowed text is the text of an incorrect option of the pool. */
  lemma {:induction false} PoolTextsFromPool(pool: seq<seq<AnswerOption>>, k: nat)
    requires k < |PoolTexts(pool)|
    ensures exists i, o :: 0 <= i < |pool| && o in pool[i] && !o.isCorrect && o.text == PoolTexts(pool)[k]
    decreases |pool|
  {
    var init := pool[..|pool| - 1];
    var last := TextsOf(Incorrect(pool[|pool| - 1]));
    if k < |PoolTexts(init)| {
      PoolTextsFromPool(init, k);
      var i: nat, o: AnswerOption :| 0 <= i < |init| && o in init[i] && !o.isCorrect && o.text == PoolTexts(init)[k];
      assert pool[i] == init[i];
    } else {
      var m := k - |PoolTexts(init)|;
      assert PoolTexts(pool)[k] == last[m];
      var o := Incorrect(pool[|pool| - 1])[m];
      assert o in Incorrect(pool[|pool| - 1]);
    }
  }

  /** Enrichment keeps the current options, in front, and adds no correct
      option, so the number of correct options is unchanged. */
  lemma EnrichKeepsCurrent(current: seq<AnswerOption>, pool: seq<seq<AnswerOption>>)
    ensures Enrich(current, pool)[..|current|] == current
    ensures |current| <= |Enrich(current, pool)| <= |current| + MaxAdditional
    ensures CorrectCount(Enrich(current, pool)) == CorrectCount(current)
  {
    BorrowedOptions(pool);
    if pool != [] {
      NoCorrectAppended(current, Borrowed(pool));
    }
  }

  lemma {:induction false} NoCorrectAppended(a: seq<AnswerOption>, b: seq<AnswerOption>)
    requires forall j :: 0 <= j < |b| ==> !b[j].isCorrect
    ensures CorrectCount(a + b) == CorrectCount(a)
    decreases |b|
  {
    if b != [] {
      var b' := b[..|b| - 1];
      assert (a + b)[..|a + b| - 1] == a + b';
      NoCorrectAppended(a, b');
    } else {
      assert a + b == a;
    }
  }
}
