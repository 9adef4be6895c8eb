/** The question-answer matching game (src/app/game/page.tsx): choosing the
    questions, building the deck, the card state machine driven by clicks and
    by the pair effect, completion, and the `MM:SS` timer display. The two
    shuffles are the identity, the fetch of the topic's questions is a
    parameter, and the delayed callbacks of the pair effect run as one later
    step (`TimersFire`). */
module Game {
  import opened Types
  import opened Text

  datatype Side = QuestionSide | AnswerSide

  /** A card (`CardType`); `questionId` links the two cards of a pair. */
  datatype Card = Card(id: string, content: string, side: Side, matched: bool, flipped: bool,
                       questionId: string, selected: bool)

  datatype GameError = NoTopic | NotEnough(found: nat) | StartFailed

  function ErrorMessage(e: GameError): string
  {
    match e
    case NoTopic => "Please select a topic"
    case NotEnough(n) => "Not enough questions available. Only " + NatToString(n) + " found."
    case StartFailed => "Failed to start the game. Please try again."
  }

  // ---------------------------------------------------------------------
  // Choosing the questions

  /** `questions.filter(q => q.difficulty === difficultyLevel)`. */
  function OfDifficulty(qs: seq<Question>, d: Difficulty): (r: seq<Question>)
    ensures |r| <= |qs|
    ensures forall q :: q in r <==> q in qs && q.difficulty == d
  {
    if qs == [] then []
    else OfDifficulty(qs[..|qs| - 1], d) + (if qs[|qs| - 1].difficulty == d then [qs[|qs| - 1]] else [])
  }

  /** The questions the game draws from: those of the chosen difficulty when
      there are enough of them, else all of the topic's. */
  function GamePool(qs: seq<Question>, d: Difficulty, pairCount: nat): seq<Question>
  {
    if |OfDifficulty(qs, d)| >= pairCount then OfDifficulty(qs, d) else qs
  }

  /** The pool has enough questions exactly when the topic has; when the
      difficulty alone has enough, only questions of that difficulty are
      used. */
  lemma GamePoolEnough(qs: seq<Question>, d: Difficulty, pairCount: nat)
    ensures |GamePool(qs, d, pairCount)| >= pairCount <==> |qs| >= pairCount
    ensures |OfDifficulty(qs, d)| >= pairCount ==>
              forall q :: q in GamePool(qs, d, pairCount) ==> q in qs && q.difficulty == d
    ensures |OfDifficulty(qs, d)| < pairCount ==> GamePool(qs, d, pairCount) == qs
  {
  }

  // ---------------------------------------------------------------------
  // The deck

  /** `${question.$id}` in a template: an absent id prints as "undefined". */
  function IdText(q: Question): string
  {
    if q.id.Some? then q.id.value else "undefined"
  }

  /** `question.$id || ''`. */
  function PairKey(q: Question): string
  {
    if q.id.Some? then q.id.value else ""
  }

  /** The options the answer is looked up in: the parsed string, or the
      field itself when it is not a string. `None` when `find` would throw:
      the parse fails, or the value is not an array. */
  function AnswerSource(q: Question, parse: string -> Parsed): Option<seq<AnswerOption>>
  {
    match q.options
    case Stored(json) => (match parse(json) case ParsedList(items) => Some(items) case _ => None)
    case InMemory(list) => Some(list)
    case NullValue => None
    case Missing => None
  }

  /** `options.find(opt => opt.isCorrect)`. */
  function FirstCorrect(os: seq<AnswerOption>): (r: Option<AnswerOption>)
    ensures r.None? <==> forall j :: 0 <= j < |os| ==> !os[j].isCorrect
    ensures r.Some? ==> exists j :: 0 <= j < |os| && os[j] == r.value && r.value.isCorrect
                                     && forall k :: 0 <= k < j ==> !os[k].isCorrect
  {
    if os == [] then None
    else if os[0].isCorrect then Some(os[0])
    else
      var r := FirstCorrect(os[1..]);
      assert forall j :: 1 <= j < |os| ==> os[j] == os[1..][j - 1];
      if r.Some? then
        var j :| 0 <= j < |os[1..]| && os[1..][j] == r.value && r.value.isCorrect
                 && forall k :: 0 <= k < j ==> !os[1..][k].isCorrect;
        assert os[j + 1] == r.value;
        r
      else r
  }

  function AnswerText(os: seq<AnswerOption>): string
  {
    if FirstCorrect(os).Some? then FirstCorrect(os).value.text else "No answer available"
  }

  function QuestionCardOf(q: Question): Card
  {
    Card("q-" + IdText(q), q.text, QuestionSide, false, true, PairKey(q), false)
  }

  function AnswerCardOf(q: Question, answer: string): Card
  {
    Card("a-" + IdText(q), answer, AnswerSide, false, true, PairKey(q), false)
  }

  /** The deck for the chosen questions, two cards per question in order, or
      `None` when some question's options cannot be searched. */
  function Deck(qs: seq<Question>, parse: string -> Parsed): Option<seq<Card>>
  {
    if qs == [] then Some([])
    else
      var init := Deck(qs[..|qs| - 1], parse);
      var src := AnswerSource(qs[|qs| - 1], parse);
      if init.None? || src.None? then None
      else Some(init.value + [QuestionCardOf(qs[|qs| - 1]), AnswerCardOf(qs[|qs| - 1], AnswerText(src.value))])
  }

  /** The deck is built exactly when every question's options can be searched. */
  lemma {:induction false} DeckBuilt(qs: seq<Question>, parse: string -> Parsed)
    ensures Deck(qs, parse).Some? <==> forall i :: 0 <= i < |qs| ==> AnswerSource(qs[i], parse).Some?
  {
    if qs != [] {
      var n := |qs| - 1;
      var init := qs[..n];
      DeckBuilt(init, parse);
      if Deck(qs, parse).Some? {
        forall i | 0 <= i < |qs| ensures AnswerSource(qs[i], parse).Some? {
          if i < n {
            assert qs[i] == init[i];
          }
        }
      } else if Deck(init, parse).Some? {
        assert AnswerSource(qs[n], parse).None?;
      } else {
        var i :| 0 <= i < n && AnswerSource(init[i], parse).None?;
        assert qs[i] == init[i];
      }
    }
  }

  /** Two selected cards match when they belong to the same question and
      show different sides. */
  predicate Matches(a: Card, b: Card)
  {
    a.questionId == b.questionId && a.side != b.side
  }

  /** The deck has two cards per question. */
  lemma {:induction false} DeckSize(qs: seq<Question>, parse: string -> Parsed)
    requires Deck(qs, parse).Some?
    ensures |Deck(qs, parse).value| == 2 * |qs|
  {
    if qs != [] {
      DeckSize(qs[..|qs| - 1], parse);
    }
  }

  /** Every card of a new deck is face up, unmatched and unselected. */
  lemma {:induction false} DeckFresh(qs: seq<Question>, parse: string -> Parsed)
    requires Deck(qs, parse).Some?
    ensures forall c :: c in Deck(qs, parse).value ==> !c.matched && !c.selected && c.flipped
  {
    if qs != [] {
      DeckFresh(qs[..|qs| - 1], parse);
    }
  }

  /** Card `2i` asks question `i` and card `2i+1` answers it with the text
      of its first correct option; the two match. */
  lemma {:induction false} DeckShape(qs: seq<Question>, parse: string -> Parsed)
    requires Deck(qs, parse).Some?
    ensures var deck := Deck(qs, parse).value;
            && |deck| == 2 * |qs|
            && forall i :: 0 <= i < |qs| ==>
                 && AnswerSource(qs[i], parse).Some?
                 && deck[2 * i] == QuestionCardOf(qs[i])
                 && deck[2 * i + 1] == AnswerCardOf(qs[i], AnswerText(AnswerSource(qs[i], parse).value))
                 && Matches(deck[2 * i], deck[2 * i + 1])
  {
    DeckSize(qs, parse);
    if qs != [] {
      var n := |qs| - 1;
      var init := qs[..n];
      DeckShape(init, parse);
      DeckSize(init, parse);
      var deck := Deck(qs, parse).value;
      var d0 := Deck(init, parse).value;
      assert |d0| == 2 * n;
      forall i | 0 <= i < |qs|
        ensures && AnswerSource(qs[i], parse).Some?
                && deck[2 * i] == QuestionCardOf(qs[i])
                && deck[2 * i + 1] == AnswerCardOf(qs[i], AnswerText(AnswerSource(qs[i], parse).value))
      {
        if i < n {
          assert init[i] == qs[i];
          assert 2 * i + 1 < |d0|;
          assert deck[2 * i] == d0[2 * i] && deck[2 * i + 1] == d0[2 * i + 1];
        } else {
          assert i == n && 2 * i == |d0|;
        }
      }
    }
  }

  /** `startGame` up to the state update: the topic check, the pool, and the
      deck for the first `pairCount` questions of the pool. */
  function StartSpec(topic: string, d: Difficulty, pairCount: nat, questions: seq<Question>,
                     parse: string -> Parsed): Result<seq<Card>, GameError>
  {
    if topic == "" then Err(NoTopic)
    else
      var pool := GamePool(questions, d, pairCount);
      if |pool| < pairCount then Err(NotEnough(|pool|))
      else
        var deck := Deck(pool[..pairCount], parse);
        if deck.None? then Err(StartFailed) else Ok(deck.value)
  }

  /** The `forEach` that pushes the two cards of each question; a question
      whose options cannot be searched throws and aborts the start. */
  method BuildDeck(qs: seq<Question>, parse: string -> Parsed) returns (deck: Option<seq<Card>>)
    ensures deck == Deck(qs, parse)
  {
    var cards: seq<Card> := [];
    var i := 0;
    while i < |qs|
      invariant i <= |qs| && Deck(qs[..i], parse) == Some(cards)
    {
      assert qs[..i + 1][..i] == qs[..i];
      var src := AnswerSource(qs[i], parse);
      if src.None? {
        DeckBuilt(qs, parse);
        return None;
      }
      cards := cards + [QuestionCardOf(qs[i]), AnswerCardOf(qs[i], AnswerText(src.value))];
      i := i + 1;
    }
    assert qs[..i] == qs;
    deck := Some(cards);
  }

  /** The checks and the deck building of `startGame`, before the state is
      set: a missing topic, too few questions, or a question whose options
      cannot be searched each stop it. */
  method Deal(topic: string, d: Difficulty, pairCount: nat, questions: seq<Question>, parse: string -> Parsed)
    returns (r: Result<seq<Card>, GameError>)
    ensures r == StartSpec(topic, d, pairCount, questions, parse)
  {
    if topic == "" {
      return Err(NoTopic);
    }
    var pool := GamePool(questions, d, pairCount);
    if |pool| < pairCount {
      return Err(NotEnough(|pool|));
    }
    var deck := BuildDeck(pool[..pairCount], parse);
    if deck.None? {
      return Err(StartFailed);
    }
    return Ok(deck.value);
  }

  // ---------------------------------------------------------------------
  // Card updates

  function IdsOf(cs: seq<Card>): (ids: seq<string>)
    ensures |ids| == |cs|
  {
    seq(|cs|, k requires 0 <= k < |cs| => cs[k].id)
  }

  /** No two cards share an id. */
  ghost predicate DistinctCards(cs: seq<Card>)
  {
    forall i, j :: 0 <= i < j < |cs| ==> cs[i].id != cs[j].id
  }

  /** Distinctness depends on the ids alone. */
  lemma SameIdsDistinct(cs: seq<Card>, r: seq<Card>)
    requires IdsOf(r) == IdsOf(cs) && DistinctCards(cs)
    ensures DistinctCards(r)
  {
    forall i, j | 0 <= i < j < |r| ensures r[i].id != r[j].id {
      assert IdsOf(r)[i] == IdsOf(cs)[i] && IdsOf(r)[j] == IdsOf(cs)[j];
    }
  }

  /** `cards.map(c => c.id === id ? { ...c, selected: v } : c)`. */
  function SetSelected(cs: seq<Card>, id: string, v: bool): (r: seq<Card>)
    ensures IdsOf(r) == IdsOf(cs)
  {
    seq(|cs|, k requires 0 <= k < |cs| => if cs[k].id == id then cs[k].(selected := v) else cs[k])
  }

  /** The two cards of a match are marked matched and deselected. */
  function MarkPair(cs: seq<Card>, a: string, b: string): (r: seq<Card>)
    ensures IdsOf(r) == IdsOf(cs)
  {
    seq(|cs|, k requires 0 <= k < |cs| =>
      if cs[k].id == a || cs[k].id == b then cs[k].(matched := true, selected := false) else cs[k])
  }

  /** The two cards of a mismatch are deselected. */
  function DeselectPair(cs: seq<Card>, a: string, b: string): (r: seq<Card>)
    ensures IdsOf(r) == IdsOf(cs)
  {
    seq(|cs|, k requires 0 <= k < |cs| => if cs[k].id == a || cs[k].id == b then cs[k].(selected := false) else cs[k])
  }

  /** The two cards of a match disappear; the others keep their order. */
  function RemovePair(cs: seq<Card>, a: string, b: string): (r: seq<Card>)
    ensures |r| <= |cs|
    ensures forall c :: c in r <==> c in cs && c.id != a && c.id != b
  {
    if cs == [] then []
    else
      var last := cs[|cs| - 1];
      RemovePair(cs[..|cs| - 1], a, b) + (if last.id == a || last.id == b then [] else [last])
  }

  /** The number of cards with id `x`. */
  function CountId(cs: seq<Card>, x: string): nat
  {
    if cs == [] then 0 else CountId(cs[..|cs| - 1], x) + (if cs[|cs| - 1].id == x then 1 else 0)
  }

  /** Removing a pair removes every card with either id, and no other. */
  lemma {:induction false} RemovePairSize(cs: seq<Card>, a: string, b: string)
    requires a != b
    ensures |RemovePair(cs, a, b)| == |cs| - CountId(cs, a) - CountId(cs, b)
  {
    if cs != [] {
      RemovePairSize(cs[..|cs| - 1], a, b);
    }
  }

  /** With distinct ids, an id present in the deck is on exactly one card. */
  lemma {:induction false} CountDistinct(cs: seq<Card>, x: string)
    requires DistinctCards(cs)
    ensures CountId(cs, x) == if x in IdsOf(cs) then 1 else 0
  {
    if cs != [] {
      var init := cs[..|cs| - 1];
      assert DistinctCards(init);
      CountDistinct(init, x);
      assert forall k :: 0 <= k < |init| ==> IdsOf(init)[k] == IdsOf(cs)[k];
      if cs[|cs| - 1].id == x {
        assert x !in IdsOf(init);
        assert IdsOf(cs)[|cs| - 1] == x;
      } else if x in IdsOf(cs) {
        var k :| 0 <= k < |cs| && IdsOf(cs)[k] == x;
        assert IdsOf(init)[k] == x;
      }
    }
  }

  /** Removing a pair keeps the ids distinct. */
  lemma {:induction false} RemovePairDistinct(cs: seq<Card>, a: string, b: string)
    requires DistinctCards(cs)
    ensures DistinctCards(RemovePair(cs, a, b))
  {
    if cs != [] {
      var init := cs[..|cs| - 1];
      var last := cs[|cs| - 1];
      RemovePairDistinct(init, a, b);
      var r0 := RemovePair(init, a, b);
      if !(last.id == a || last.id == b) {
        forall i | 0 <= i < |r0| ensures r0[i].id != last.id {
          assert r0[i] in init;
          var k :| 0 <= k < |init| && init[k] == r0[i];
        }
      }
    }
  }

  /** Questions whose ids print differently. */
  ghost predicate DistinctIdTexts(qs: seq<Question>)
  {
    forall i, j :: 0 <= i < j < |qs| ==> IdText(qs[i]) != IdText(qs[j])
  }

  /** Distinct question ids give distinct card ids. */
  lemma {:induction false} DeckDistinct(qs: seq<Question>, parse: string -> Parsed)
    requires Deck(qs, parse).Some? && DistinctIdTexts(qs)
    ensures DistinctCards(Deck(qs, parse).value)
  {
    if qs != [] {
      var n := |qs| - 1;
      var init := qs[..n];
      var x := IdText(qs[n]);
      DeckSnoc(qs, parse);
      DeckDistinct(init, parse);
      DeckIdsFrom(init, parse);
      var d0 := Deck(init, parse).value;
      var qc := QuestionCardOf(qs[n]);
      var ac := AnswerCardOf(qs[n], AnswerText(AnswerSource(qs[n], parse).value));
      forall c | c in d0 ensures c.id != qc.id && c.id != ac.id {
        var m :| 0 <= m < |init| && (c.id == "q-" + IdText(init[m]) || c.id == "a-" + IdText(init[m]));
        assert init[m] == qs[m] && IdText(qs[m]) != x;
        PrefixedIds("q-", "q-", IdText(init[m]), x);
        PrefixedIds("q-", "a-", IdText(init[m]), x);
        PrefixedIds("a-", "q-", IdText(init[m]), x);
        PrefixedIds("a-", "a-", IdText(init[m]), x);
      }
      PrefixedIds("q-", "a-", x, x);
      AppendPairDistinct(d0, qc, ac);
    }
  }

  /** The deck of a non-empty list is the deck of all but the last question
      followed by that question's two cards. */
  lemma DeckSnoc(qs: seq<Question>, parse: string -> Parsed)
    requires qs != [] && Deck(qs, parse).Some?
    ensures var n := |qs| - 1;
            && Deck(qs[..n], parse).Some? && AnswerSource(qs[n], parse).Some?
            && Deck(qs, parse).value
               == Deck(qs[..n], parse).value
                  + [QuestionCardOf(qs[n]), AnswerCardOf(qs[n], AnswerText(AnswerSource(qs[n], parse).value))]
  {
  }

  /** Two new cards with distinct ids of their own, absent from a deck of
      distinct cards, keep it distinct. */
  lemma AppendPairDistinct(d0: seq<Card>, qc: Card, ac: Card)
    requires DistinctCards(d0) && qc.id != ac.id
    requires forall c :: c in d0 ==> c.id != qc.id && c.id != ac.id
    ensures DistinctCards(d0 + [qc, ac])
  {
    var deck := d0 + [qc, ac];
    forall i, j | 0 <= i < j < |deck| ensures deck[i].id != deck[j].id {
      if j < |d0| {
        assert deck[i] == d0[i] && deck[j] == d0[j];
      } else if i < |d0| {
        assert deck[i] == d0[i] && d0[i] in d0;
      }
    }
  }

  /** Every card id of a deck is a prefix followed by the id of one of its
      questions. */
  lemma {:induction false} DeckIdsFrom(qs: seq<Question>, parse: string -> Parsed)
    requires Deck(qs, parse).Some?
    ensures forall c :: c in Deck(qs, parse).value ==>
              exists i :: 0 <= i < |qs| && (c.id == "q-" + IdText(qs[i]) || c.id == "a-" + IdText(qs[i]))
  {
    if qs != [] {
      var init := qs[..|qs| - 1];
      DeckIdsFrom(init, parse);
      forall c | c in Deck(qs, parse).value
        ensures exists i :: 0 <= i < |qs| && (c.id == "q-" + IdText(qs[i]) || c.id == "a-" + IdText(qs[i]))
      {
        if c in Deck(init, parse).value {
          var i :| 0 <= i < |init| && (c.id == "q-" + IdText(init[i]) || c.id == "a-" + IdText(init[i]));
          assert init[i] == qs[i];
        } else {
          assert c.id == "q-" + IdText(qs[|qs| - 1]) || c.id == "a-" + IdText(qs[|qs| - 1]);
        }
      }
    }
  }

  /** Two card ids are equal only with the same prefix and the same question id. */
  lemma PrefixedIds(p1: string, p2: string, x: string, y: string)
    requires (p1 == "q-" || p1 == "a-") && (p2 == "q-" || p2 == "a-")
    ensures p1 + x == p2 + y <==> p1 == p2 && x == y
  {
    if p1 + x == p2 + y {
      var s1, s2 := p1 + x, p2 + y;
      assert s1[0] == p1[0] && s2[0] == p2[0];
      assert s1[2..] == x && s2[2..] == y;
    }
  }

  /** When only the pair is highlighted, no card is highlighted once the
      pair is removed or deselected. */
  lemma SelectionCleared(cs: seq<Card>, a: string, b: string)
    requires forall k :: 0 <= k < |cs| && cs[k].selected ==> cs[k].id == a || cs[k].id == b
    ensures forall k :: 0 <= k < |RemovePair(cs, a, b)| ==> !RemovePair(cs, a, b)[k].selected
    ensures forall k :: 0 <= k < |DeselectPair(cs, a, b)| ==> !DeselectPair(cs, a, b)[k].selected
  {
    var r := RemovePair(cs, a, b);
    forall k | 0 <= k < |r| ensures !r[k].selected {
      assert r[k] in cs;
      var m :| 0 <= m < |cs| && cs[m] == r[k];
    }
  }

  /** Removing a pair of distinct ids present in a deck of distinct cards
      takes out exactly two cards and keeps the rest distinct. */
  lemma RemovePairKeepsPairs(cs: seq<Card>, a: string, b: string)
    requires DistinctCards(cs) && a != b && a in IdsOf(cs) && b in IdsOf(cs)
    ensures |RemovePair(cs, a, b)| == |cs| - 2
    ensures DistinctCards(RemovePair(cs, a, b))
  {
    RemovePairSize(cs, a, b);
    CountDistinct(cs, a);
    CountDistinct(cs, b);
    RemovePairDistinct(cs, a, b);
  }

  // ---------------------------------------------------------------------
  // The timer display

  /** `padStart(2, '0')`. */
  function Pad2(s: string): string
  {
    if |s| == 0 then "00" else if |s| == 1 then "0" + s else s
  }

  /** `formatTime`: minutes and seconds, each padded to two digits. */
  function FormatTime(t: nat): string
  {
    Pad2(NatToString(t / 60)) + ":" + Pad2(NatToString(t % 60))
  }

  /** The value of a string of decimal digits. */
  function DecimalValue(s: string): nat
  {
    if s == [] then 0
    else DecimalValue(s[..|s| - 1]) * 10 + (if IsDigit(s[|s| - 1]) then (s[|s| - 1] - '0') as nat else 0)
  }

  /** Reading a displayed time back: minutes before the colon, seconds after. */
  function ReadTime(s: string): nat
  {
    var k := IndexOf(s, ':');
    DecimalValue(s[..k]) * 60 + (if k < |s| then DecimalValue(s[k + 1..]) else 0)
  }

  lemma {:induction false} DecimalOfNatToString(n: nat)
    ensures DecimalValue(NatToString(n)) == n
  {
    if n >= 10 {
      DecimalOfNatToString(n / 10);
      var s := NatToString(n);
      assert s[..|s| - 1] == NatToString(n / 10);
    }
  }

  lemma {:induction false} LeadingZero(s: string)
    ensures DecimalValue("0" + s) == DecimalValue(s)
  {
    if s != [] {
      LeadingZero(s[..|s| - 1]);
      assert ("0" + s)[..|"0" + s| - 1] == "0" + s[..|s| - 1];
    } else {
      assert "0" + s == "0";
    }
  }

  lemma {:induction false} NatToStringWidth(n: nat)
    ensures |NatToString(n)| >= 2 <==> n >= 10
    ensures |NatToString(n)| >= 3 <==> n >= 100
  {
    if n >= 10 {
      NatToStringWidth(n / 10);
    }
  }

  /** Reading the display back gives the elapsed seconds. */
  lemma FormatTimeRoundTrip(t: nat)
    ensures ReadTime(FormatTime(t)) == t
  {
    var m, sec := NatToString(t / 60), NatToString(t % 60);
    var pm, ps := Pad2(m), Pad2(sec);
    var s := FormatTime(t);
    assert s == pm + ":" + ps;
    assert forall j :: 0 <= j < |pm| ==> s[j] == pm[j] && IsDigit(pm[j]) && s[j] != ':';
    assert s[|pm|] == ':';
    var k := IndexOf(s, ':');
    assert k == |pm|;
    assert s[..k] == pm;
    assert s[k + 1..] == ps;
    DecimalOfNatToString(t / 60);
    DecimalOfNatToString(t % 60);
    if |m| == 1 { LeadingZero(m); }
    if |sec| == 1 { LeadingZero(sec); }
  }

  /** The display is five characters exactly below 100 minutes. */
  lemma FormatTimeWidth(t: nat)
    ensures |FormatTime(t)| == 5 <==> t < 6000
  {
    NatToStringWidth(t / 60);
    NatToStringWidth(t % 60);
  }

  // ---------------------------------------------------------------------
  // The page state

  /** The selection holds at most two distinct cards of the deck, and a
      card is highlighted only while it is in the selection; before a game
      there are no cards, and a completed game has none left. */
  ghost predicate Consistent(cards: seq<Card>, flipped: seq<Card>, started: bool, completed: bool)
  {
    && |flipped| <= 2
    && (|flipped| == 2 ==> flipped[0].id != flipped[1].id)
    && (forall j :: 0 <= j < |flipped| ==> flipped[j].id in IdsOf(cards))
    && (forall k :: 0 <= k < |cards| && cards[k].selected ==> cards[k].id in IdsOf(flipped))
    && (!started ==> cards == [] && flipped == [])
    && (completed ==> started && cards == [])
  }

  /** The deck is whole pairs of distinct cards, at most `pairCount` of them. */
  ghost predicate WholePairs(cards: seq<Card>, pairCount: nat)
  {
    DistinctCards(cards) && |cards| % 2 == 0 && |cards| <= 2 * pairCount
  }

  /** A click on an unmatched card with fewer than two selected either
      deselects the sole selected card or adds the card to the selection;
      both keep the state consistent. */
  lemma ClickKeepsConsistent(cards: seq<Card>, flipped: seq<Card>, started: bool, completed: bool, card: Card)
    requires Consistent(cards, flipped, started, completed)
    requires card in cards && |flipped| < 2
    ensures |flipped| == 1 && flipped[0].id == card.id ==>
              Consistent(SetSelected(cards, card.id, false), [], started, completed)
    ensures !(|flipped| == 1 && flipped[0].id == card.id) ==>
              Consistent(SetSelected(cards, card.id, true), flipped + [card], started, completed)
  {
    var k :| 0 <= k < |cards| && cards[k] == card;
    assert IdsOf(cards)[k] == card.id;
    var f := flipped + [card];
    assert IdsOf(f)[|f| - 1] == card.id;
    assert forall j :: 0 <= j < |flipped| ==> IdsOf(f)[j] == IdsOf(flipped)[j];
  }

  /** The delayed callback for a matching pair keeps the state consistent,
      clears every highlight, and takes exactly one pair out of a deck of
      whole pairs. */
  lemma PairRemovedConsistent(cards: seq<Card>, flipped: seq<Card>, started: bool, completed: bool, pairCount: nat)
    requires Consistent(cards, flipped, started, completed) && |flipped| == 2
    requires Matches(flipped[0], flipped[1])
    ensures Consistent(RemovePair(cards, flipped[0].id, flipped[1].id), [], started, completed)
    ensures WholePairs(cards, pairCount) ==>
              WholePairs(RemovePair(cards, flipped[0].id, flipped[1].id), pairCount)
              && |RemovePair(cards, flipped[0].id, flipped[1].id)| == |cards| - 2
  {
    var a, b := flipped[0], flipped[1];
    assert IdsOf(flipped) == [a.id, b.id];
    SelectionCleared(cards, a.id, b.id);
    if WholePairs(cards, pairCount) {
      RemovePairKeepsPairs(cards, a.id, b.id);
      assert (|cards| - 2) % 2 == 0;
    }
  }

  /** The delayed callback for a mismatch keeps the state consistent, clears
      every highlight and keeps the deck. */
  lemma PairDeselectedConsistent(cards: seq<Card>, flipped: seq<Card>, started: bool, completed: bool, pairCount: nat)
    requires Consistent(cards, flipped, started, completed) && |flipped| == 2
    requires !Matches(flipped[0], flipped[1])
    ensures Consistent(DeselectPair(cards, flipped[0].id, flipped[1].id), [], started, completed)
    ensures WholePairs(cards, pairCount) ==> WholePairs(DeselectPair(cards, flipped[0].id, flipped[1].id), pairCount)
  {
    var a, b := flipped[0], flipped[1];
    assert IdsOf(flipped) == [a.id, b.id];
    SelectionCleared(cards, a.id, b.id);
    if WholePairs(cards, pairCount) {
      SameIdsDistinct(cards, DeselectPair(cards, a.id, b.id));
    }
  }

  /** A freshly dealt deck is a consistent state of a started game with
      nothing selected, and whole pairs when the question ids differ. */
  lemma DealtDeck(qs: seq<Question>, parse: string -> Parsed, pairCount: nat)
    requires Deck(qs, parse).Some? && |qs| == pairCount
    ensures Consistent(Deck(qs, parse).value, [], true, false)
    ensures DistinctIdTexts(qs) ==> WholePairs(Deck(qs, parse).value, pairCount)
  {
    DeckFresh(qs, parse);
    DeckSize(qs, parse);
    var deck := Deck(qs, parse).value;
    FreshConsistent(deck);
    if DistinctIdTexts(qs) {
      DeckDistinct(qs, parse);
      DoubleIsEven(pairCount);
    }
  }

  lemma DoubleIsEven(n: nat)
    ensures (2 * n) % 2 == 0
  {
  }

  /** Cards none of which is selected are a consistent started game with
      nothing flipped. */
  lemma FreshConsistent(deck: seq<Card>)
    requires forall c :: c in deck ==> !c.selected
    ensures Consistent(deck, [], true, false)
  {
    forall k | 0 <= k < |deck| ensures !deck[k].selected {
      assert deck[k] in deck;
    }
  }

  /** A successful start deals a consistent started game, whole pairs when
      the chosen questions' ids differ. */
  lemma StartDealsValid(topic: string, d: Difficulty, pairCount: nat, questions: seq<Question>,
                        parse: string -> Parsed)
    ensures var r := StartSpec(topic, d, pairCount, questions, parse);
            r.Ok? ==> Consistent(r.value, [], true, false)
    ensures var r := StartSpec(topic, d, pairCount, questions, parse);
            r.Ok? && DistinctIdTexts(GamePool(questions, d, pairCount)[..pairCount]) ==> WholePairs(r.value, pairCount)
  {
    var pool := GamePool(questions, d, pairCount);
    if topic != "" && |pool| >= pairCount && Deck(pool[..pairCount], parse).Some? {
      DealtDeck(pool[..pairCount], parse, pairCount);
    }
  }

  class MemoryGame {
    var cards: seq<Card>
    var flipped: seq<Card>
    var started: bool
    var completed: bool
    var timer: nat
    var pairCount: nat
    var error: Option<GameError>

    ghost predicate Valid()
      reads this
    {
      Consistent(cards, flipped, started, completed)
    }

    ghost predicate Paired()
      reads this
    {
      WholePairs(cards, pairCount)
    }

    constructor ()
      ensures Valid() && Paired()
      ensures cards == [] && flipped == [] && !started && !completed && timer == 0 && pairCount == 5 && error == None
    {
      cards := [];
      flipped := [];
      started := false;
      completed := false;
      timer := 0;
      pairCount := 5;
      error := None;
    }

    /** The pair-count select, shown before a game. */
    method SetPairCount(n: nat)
      requires Valid() && !started
      modifies this
      ensures Valid() && Paired() && pairCount == n
      ensures cards == old(cards) && flipped == old(flipped) && started == old(started)
      ensures completed == old(completed) && timer == old(timer) && error == old(error)
    {
      pairCount := n;
    }

    /** `startGame`, offered before a game. A refusal records the error; a
        start deals the deck, and with distinct question ids the deck is
        whole pairs. */
    method Start(topic: string, d: Difficulty, questions: seq<Question>, parse: string -> Parsed)
      requires Valid() && !started
      modifies this
      ensures Valid() && pairCount == old(pairCount)
      ensures var r := StartSpec(topic, d, old(pairCount), questions, parse);
              r.Err? ==> error == Some(r.error) && cards == old(cards) && flipped == old(flipped)
                         && started == old(started) && completed == old(completed) && timer == old(timer)
      ensures var r := StartSpec(topic, d, old(pairCount), questions, parse);
              r.Ok? ==> cards == r.value && flipped == [] && started && !completed && timer == 0 && error == None
      ensures StartSpec(topic, d, old(pairCount), questions, parse).Ok?
              && DistinctIdTexts(GamePool(questions, d, old(pairCount))[..old(pairCount)])
              ==> Paired()
    {
      var r := Deal(topic, d, pairCount, questions, parse);
      StartDealsValid(topic, d, pairCount, questions, parse);
      if r.Err? {
        error := Some(r.error);
      } else {
        cards, flipped, timer, started, completed, error := r.value, [], 0, true, false, None;
      }
    }

    /** `handleCardClick` on a card of the deck. */
    method Click(card: Card)
      requires Valid() && card in cards
      modifies this
      ensures Valid() && (old(Paired()) ==> Paired())
      ensures if card.matched || |old(flipped)| >= 2 then cards == old(cards) && flipped == old(flipped)
              else if |old(flipped)| == 1 && old(flipped)[0].id == card.id
              then flipped == [] && cards == SetSelected(old(cards), card.id, false)
              else flipped == old(flipped) + [card] && cards == SetSelected(old(cards), card.id, true)
      ensures started == old(started) && completed == old(completed) && timer == old(timer)
      ensures pairCount == old(pairCount) && error == old(error)
    {
      if card.matched {
        return;
      }
      if |flipped| >= 2 {
        return;
      }
      ClickKeepsConsistent(cards, flipped, started, completed, card);
      if |flipped| == 1 && flipped[0].id == card.id {
        flipped := [];
        cards := SetSelected(cards, card.id, false);
        return;
      }
      cards := SetSelected(cards, card.id, true);
      flipped := flipped + [card];
    }

    /** The immediate part of the pair effect: a matching pair is marked
        matched and deselected. */
    method PairEffect()
      requires Valid()
      modifies this
      ensures Valid() && (old(Paired()) ==> Paired())
      ensures cards == if |old(flipped)| == 2 && Matches(old(flipped)[0], old(flipped)[1])
                       then MarkPair(old(cards), old(flipped)[0].id, old(flipped)[1].id)
                       else old(cards)
      ensures flipped == old(flipped) && started == old(started) && completed == old(completed)
      ensures timer == old(timer) && pairCount == old(pairCount) && error == old(error)
    {
      if |flipped| == 2 && Matches(flipped[0], flipped[1]) {
        cards := MarkPair(cards, flipped[0].id, flipped[1].id);
      }
    }

    /** The delayed callbacks of the pair effect: a matching pair leaves the
        deck, a mismatch is deselected, and the selection is cleared. */
    method TimersFire()
      requires Valid() && |flipped| == 2
      modifies this
      ensures Valid() && (old(Paired()) ==> Paired()) && flipped == []
      ensures var a, b := old(flipped)[0], old(flipped)[1];
              cards == if Matches(a, b) then RemovePair(old(cards), a.id, b.id)
                       else DeselectPair(old(cards), a.id, b.id)
      ensures old(Paired()) && Matches(old(flipped)[0], old(flipped)[1]) ==> |cards| == |old(cards)| - 2
      ensures started == old(started) && completed == old(completed)
      ensures timer == old(timer) && pairCount == old(pairCount) && error == old(error)
    {
      var a, b := flipped[0], flipped[1];
      if Matches(a, b) {
        PairRemovedConsistent(cards, flipped, started, completed, pairCount);
        cards := RemovePair(cards, a.id, b.id);
      } else {
        PairDeselectedConsistent(cards, flipped, started, completed, pairCount);
        cards := DeselectPair(cards, a.id, b.id);
      }
      flipped := [];
    }

    /** The completion effect: a started game with no cards left is complete. */
    method CheckCompletion()
      requires Valid()
      modifies this
      ensures Valid() && (old(Paired()) ==> Paired())
      ensures completed <==> started && cards == []
      ensures cards == old(cards) && flipped == old(flipped) && started == old(started)
      ensures timer == old(timer) && pairCount == old(pairCount) && error == old(error)
    {
      if started && cards == [] && !completed {
        completed := true;
      }
    }

    /** One tick of the interval, which runs only during a game. */
    method Tick()
      requires Valid()
      modifies this
      ensures Valid() && (old(Paired()) ==> Paired())
      ensures timer == if started && !completed then old(timer) + 1 else old(timer)
      ensures cards == old(cards) && flipped == old(flipped) && started == old(started)
      ensures completed == old(completed) && pairCount == old(pairCount) && error == old(error)
    {
      if started && !completed {
        timer := timer + 1;
      }
    }

    /** `resetGame`. */
    method Reset()
      requires Valid()
      modifies this
      ensures Valid() && Paired()
      ensures !started && !completed && cards == [] && flipped == [] && timer == 0
      ensures pairCount == old(pairCount) && error == old(error)
    {
      started := false;
      completed := false;
      cards := [];
      flipped := [];
      timer := 0;
    }

    /** "Matched: {pairCount - cards.length / 2} of {pairCount}": over whole
        pairs a count between 0 and `pairCount`. */
    function MatchedPairs(): (n: int)
      reads this
      ensures Paired() ==> 0 <= n <= pairCount && |cards| == 2 * (pairCount - n)
    {
      pairCount - |cards| / 2
    }
  }
}
