/**
 * The `decks` collection: one document per deck, `_id` the deck name and
 * `cards` its list of cards. The collection is a map from deck name to
 * cards, so names are unique by construction.
 */
module DeckStore {
  import opened Cards
  import opened Text
  import opened Sorting

  /** The collection: deck name to cards. */
  type Decks = map<string, seq<Card>>

  /** `get_deck(name)`: the deck's cards, or `[]` when there is no such deck. */
  function GetDeck(decks: Decks, name: string): (cards: seq<Card>)
    ensures name in decks ==> cards == decks[name]
    ensures name !in decks ==> cards == []
  {
    if name in decks then decks[name] else []
  }

  /** One entry of `get_all_cards_with_indices`. */
  datatype IndexedCard = IndexedCard(index: nat, question: string, answer: string)

  /** `get_all_cards_with_indices(name)`: each card with the position `delete_card` takes for it. */
  function GetAllCardsWithIndices(decks: Decks, name: string): (r: seq<IndexedCard>)
    ensures |r| == |GetDeck(decks, name)|
    ensures forall k :: 0 <= k < |r| ==> r[k].index == k
    ensures forall k :: 0 <= k < |r| ==> GetDeck(decks, name)[r[k].index] == Card(r[k].question, r[k].answer)
  {
    var cards := GetDeck(decks, name);
    seq(|cards|, k requires 0 <= k < |cards| => IndexedCard(k, cards[k].question, cards[k].answer))
  }

  /** The comparison key of `find_duplicate_cards`: `question.strip().lower()`. */
  function QuestionKey(c: Card): string {
    Lower(Strip(c.question))
  }

  /** The question key of every card, in deck order. */
  function QuestionKeys(cards: seq<Card>): (ks: seq<string>)
    ensures |ks| == |cards|
    ensures forall i :: 0 <= i < |cards| ==> ks[i] == QuestionKey(cards[i])
  {
    seq(|cards|, i requires 0 <= i < |cards| => QuestionKey(cards[i]))
  }

  /** An earlier position of `ks` holds the same key as position `i`. */
  predicate HasEarlierTwin(ks: seq<string>, i: nat)
    requires i < |ks|
  {
    exists j :: 0 <= j < i && ks[j] == ks[i]
  }

  /** The distinct keys among the first `n`. */
  function KeysUpTo(ks: seq<string>, n: nat): set<string>
    requires n <= |ks|
  {
    set j | 0 <= j < n :: ks[j]
  }

  /** One entry of `find_duplicate_cards`. */
  datatype Duplicate = Duplicate(index: nat, question: string, answer: string, originalIndex: nat)

  /** `d` reports card `d.index` as a repeat of the first card with its key (`ks` holds the keys). */
  predicate Reports(cards: seq<Card>, ks: seq<string>, d: Duplicate)
    requires |ks| == |cards|
  {
    && d.originalIndex < d.index < |cards|
    && d.question == cards[d.index].question && d.answer == cards[d.index].answer
    && ks[d.originalIndex] == ks[d.index]
    && forall j :: 0 <= j < d.originalIndex ==> ks[j] != ks[d.index]
  }

  /** `seen` maps each key among the first `n` to the first position holding it. */
  predicate SeenFirst(ks: seq<string>, n: nat, seen: map<string, nat>)
    requires n <= |ks|
  {
    && seen.Keys == KeysUpTo(ks, n)
    && forall q :: q in seen ==>
         (&& seen[q] < n && ks[seen[q]] == q
          && forall j :: 0 <= j < seen[q] ==> ks[j] != q)
  }

  /** The entries of `dups` report exactly the repeated cards among the first `n`, in order. */
  predicate DuplicatesUpTo(cards: seq<Card>, ks: seq<string>, n: nat, dups: seq<Duplicate>)
    requires |ks| == |cards| && n <= |ks|
  {
    && (forall k :: 0 <= k < |dups| ==> Reports(cards, ks, dups[k]) && dups[k].index < n)
    && (forall k, l :: 0 <= k < l < |dups| ==> dups[k].index < dups[l].index)
    && (forall i :: 0 <= i < n ==> (HasEarlierTwin(ks, i) <==> exists k :: 0 <= k < |dups| && dups[k].index == i))
  }

  /** Position `n` holds a new key: it joins `seen` and nothing is reported. */
  lemma StepNew(cards: seq<Card>, ks: seq<string>, n: nat, seen: map<string, nat>, dups: seq<Duplicate>)
    requires |ks| == |cards| && n < |ks| && SeenFirst(ks, n, seen) && DuplicatesUpTo(cards, ks, n, dups)
    requires ks[n] !in seen
    ensures SeenFirst(ks, n + 1, seen[ks[n] := n])
    ensures DuplicatesUpTo(cards, ks, n + 1, dups)
    ensures |seen[ks[n] := n]| == |seen| + 1
  {
    KeysStep(ks, n);
    NoEarlierTwin(ks, n);
    SeenGrows(ks, n, seen);
    DuplicatesKeep(cards, ks, n, dups);
  }

  lemma KeysStep(ks: seq<string>, n: nat)
    requires n < |ks|
    ensures KeysUpTo(ks, n + 1) == KeysUpTo(ks, n) + {ks[n]}
  {
  }

  lemma NoEarlierTwin(ks: seq<string>, n: nat)
    requires n < |ks|
    ensures ks[n] !in KeysUpTo(ks, n) <==> !HasEarlierTwin(ks, n)
  {
    if HasEarlierTwin(ks, n) {
      var j :| 0 <= j < n && ks[j] == ks[n];
      assert ks[j] in KeysUpTo(ks, n);
    }
  }

  lemma SeenGrows(ks: seq<string>, n: nat, seen: map<string, nat>)
    requires n < |ks| && SeenFirst(ks, n, seen) && ks[n] !in seen
    requires KeysUpTo(ks, n + 1) == KeysUpTo(ks, n) + {ks[n]}
    requires !HasEarlierTwin(ks, n)
    ensures SeenFirst(ks, n + 1, seen[ks[n] := n])
  {
  }

  lemma DuplicatesKeep(cards: seq<Card>, ks: seq<string>, n: nat, dups: seq<Duplicate>)
    requires |ks| == |cards| && n < |ks| && DuplicatesUpTo(cards, ks, n, dups)
    requires !HasEarlierTwin(ks, n)
    ensures DuplicatesUpTo(cards, ks, n + 1, dups)
  {
  }

  /** Position `n` repeats a key: it is reported against the first position holding it. */
  lemma StepRepeat(cards: seq<Card>, ks: seq<string>, n: nat, seen: map<string, nat>, dups: seq<Duplicate>)
    requires |ks| == |cards| && n < |ks| && SeenFirst(ks, n, seen) && DuplicatesUpTo(cards, ks, n, dups)
    requires ks[n] in seen
    ensures SeenFirst(ks, n + 1, seen)
    ensures DuplicatesUpTo(cards, ks, n + 1, dups + [Duplicate(n, cards[n].question, cards[n].answer, seen[ks[n]])])
  {
    assert KeysUpTo(ks, n + 1) == KeysUpTo(ks, n) + {ks[n]};
    var dups' := dups + [Duplicate(n, cards[n].question, cards[n].answer, seen[ks[n]])];
    assert HasEarlierTwin(ks, n);
    assert dups'[|dups|].index == n;
    forall i | 0 <= i < n
      ensures HasEarlierTwin(ks, i) <==> exists k :: 0 <= k < |dups'| && dups'[k].index == i
    {
      if exists k :: 0 <= k < |dups'| && dups'[k].index == i {
        var k :| 0 <= k < |dups'| && dups'[k].index == i;
        assert k < |dups| && dups[k].index == i;
      }
      if HasEarlierTwin(ks, i) {
        var k :| 0 <= k < |dups| && dups[k].index == i;
        assert dups'[k].index == i;
      }
    }
  }

  /** `get_deck_names()`: the deck names (`distinct("_id")`), sorted. */
  method GetDeckNames(decks: Decks) returns (names: seq<string>)
    ensures SortedStrings(names)
    ensures forall n :: n in names <==> n in decks
    ensures |names| == |decks|
  {
    names := [];
    var rest := decks.Keys;
    while rest != {}
      invariant rest <= decks.Keys
      invariant SortedStrings(names)
      invariant forall n :: n in multiset(names) <==> n in decks && n !in rest
      invariant |names| + |rest| == |decks|
      decreases |rest|
    {
      var n :| n in rest;
      names := InsertString(n, names);
      rest := rest - {n};
    }
    assert forall n :: n in names <==> n in multiset(names);
  }

  class Store {
    var decks: Decks

    constructor ()
      ensures decks == map[]
    {
      decks := map[];
    }

    /** `add_card(name, question, answer)`: `$push` with `upsert`, so a missing deck is created. */
    method AddCard(name: string, question: string, answer: string)
      modifies this
      ensures decks == old(decks)[name := GetDeck(old(decks), name) + [Card(question, answer)]]
    {
      decks := decks[name := GetDeck(decks, name) + [Card(question, answer)]];
    }

    /** `create_deck(name)`: `false` when the deck exists, otherwise a new empty deck and `true`. */
    method CreateDeck(name: string) returns (created: bool)
      modifies this
      ensures created <==> name !in old(decks)
      ensures created ==> decks == old(decks)[name := []]
      ensures !created ==> decks == old(decks)
    {
      if name in decks {
        return false;
      }
      decks := decks[name := []];
      created := true;
    }

    /**
     * `delete_card(name, index)`: removes card `index` and returns `true`
     * when the deck exists and `0 <= index < len(cards)`; otherwise `false`
     * and nothing changes.
     */
    method DeleteCard(name: string, index: int) returns (deleted: bool)
      modifies this
      ensures deleted <==> name in old(decks) && 0 <= index < |old(decks)[name]|
      ensures deleted ==> decks == old(decks)[name := RemoveAt(old(decks)[name], index)]
      ensures !deleted ==> decks == old(decks)
    {
      if name !in decks {
        return false;
      }
      var cards := decks[name];
      if 0 <= index < |cards| {
        cards := cards[..index] + cards[index + 1..];
        decks := decks[name := cards];
        return true;
      }
      return false;
    }

    /**
     * `find_duplicate_cards(name)`: every card whose question key already
     * occurred, with the position of the first card holding that key, in
     * deck order; `[]` for a missing deck.
     */
    method FindDuplicateCards(name: string) returns (duplicates: seq<Duplicate>)
      ensures var cards := GetDeck(decks, name); var ks := QuestionKeys(cards);
        && DuplicatesUpTo(cards, ks, |cards|, duplicates)
        && |duplicates| == |cards| - |KeysUpTo(ks, |cards|)|
    {
      var cards := GetDeck(decks, name);
      duplicates := ScanCards(cards);
      ScanUpToCorrect(cards, QuestionKeys(cards), |cards|);
      ScanCount(cards, QuestionKeys(cards), |cards|);
    }
  }

  /** The loop of `find_duplicate_cards` over the cards of one deck. */
  method ScanCards(cards: seq<Card>) returns (duplicates: seq<Duplicate>)
    ensures duplicates == ScanUpTo(cards, QuestionKeys(cards), |cards|).dups
  {
    var seen: map<string, nat> := map[];
    duplicates := [];
    for idx := 0 to |cards|
      invariant ScanUpTo(cards, QuestionKeys(cards), idx) == Scan(seen, duplicates)
    {
      seen, duplicates := ScanCard(cards, idx, seen, duplicates);
    }
  }

  /** One pass of that loop: a repeated question is reported, a new one remembered. */
  method ScanCard(cards: seq<Card>, idx: nat, seen: map<string, nat>, duplicates: seq<Duplicate>)
    returns (seen': map<string, nat>, duplicates': seq<Duplicate>)
    requires idx < |cards|
    ensures Scan(seen', duplicates') == ScanStep(cards, QuestionKeys(cards), idx, Scan(seen, duplicates))
  {
    var card := cards[idx];
    var question := QuestionKey(card);
    if question in seen {
      seen', duplicates' := seen, duplicates + [Duplicate(idx, card.question, card.answer, seen[question])];
    } else {
      seen', duplicates' := seen[question := idx], duplicates;
    }
  }

  /** The `seen` dictionary and the `duplicates` list after the first `n` cards. */
  datatype Scan = Scan(seen: map<string, nat>, dups: seq<Duplicate>)

  function ScanUpTo(cards: seq<Card>, ks: seq<string>, n: nat): Scan
    requires |ks| == |cards| && n <= |cards|
  {
    if n == 0 then Scan(map[], []) else ScanStep(cards, ks, n - 1, ScanUpTo(cards, ks, n - 1))
  }

  /** Card `i` seen after `before`: a repeated key is reported, a new one remembered. */
  function ScanStep(cards: seq<Card>, ks: seq<string>, i: nat, before: Scan): Scan
    requires |ks| == |cards| && i < |cards|
  {
    if ks[i] in before.seen
    then Scan(before.seen, before.dups + [Duplicate(i, cards[i].question, cards[i].answer, before.seen[ks[i]])])
    else Scan(before.seen[ks[i] := i], before.dups)
  }

  /** After any number of cards, `seen` records first positions and `duplicates` the repeats so far. */
  lemma {:induction false} ScanUpToCorrect(cards: seq<Card>, ks: seq<string>, n: nat)
    requires |ks| == |cards| && n <= |cards|
    ensures var scan := ScanUpTo(cards, ks, n);
      && SeenFirst(ks, n, scan.seen) && DuplicatesUpTo(cards, ks, n, scan.dups)
      && |scan.dups| + |scan.seen| == n
  {
    if n == 0 {
      assert KeysUpTo(ks, 0) == {};
    } else {
      var i := n - 1;
      var before := ScanUpTo(cards, ks, i);
      var scan := ScanUpTo(cards, ks, n);
      ScanUpToCorrect(cards, ks, i);
      if ks[i] in before.seen {
        assert scan == Scan(before.seen, before.dups + [Duplicate(i, cards[i].question, cards[i].answer, before.seen[ks[i]])]);
        StepRepeat(cards, ks, i, before.seen, before.dups);
      } else {
        assert scan == Scan(before.seen[ks[i] := i], before.dups);
        StepNew(cards, ks, i, before.seen, before.dups);
      }
    }
  }

  /** The number of repeats is the number of cards minus the number of distinct question keys. */
  lemma ScanCount(cards: seq<Card>, ks: seq<string>, n: nat)
    requires |ks| == |cards| && n <= |cards|
    ensures |ScanUpTo(cards, ks, n).dups| == n - |KeysUpTo(ks, n)|
  {
    var scan := ScanUpTo(cards, ks, n);
    ScanUpToCorrect(cards, ks, n);
    assert |scan.seen.Keys| == |scan.seen|;
  }

  /** `cards.pop(i)`: every card but card `i`, in order. */
  function RemoveAt(cards: seq<Card>, i: nat): (r: seq<Card>)
    requires i < |cards|
    ensures |r| == |cards| - 1
    ensures forall k :: 0 <= k < i ==> r[k] == cards[k]
    ensures forall k :: i <= k < |r| ==> r[k] == cards[k + 1]
  {
    cards[..i] + cards[i + 1..]
  }
}
