/** The fixed deck of the 22 major arcana and the random initial draw. */
module Catalog {

  /** A card: its display name and the URL of its picture. */
  datatype Card = Card(name: string, imgUrl: string)

  /** The catalog, in the order the application lists it. */
  const TarotCards: seq<Card> := [
    Card("The Fool", "https://randomtarotcard.com/TheFool.jpg"),
    Card("The Magician", "https://randomtarotcard.com/TheMagician.jpg"),
    Card("The High Priestess", "https://randomtarotcard.com/TheHighPriestess.jpg"),
    Card("The Empress", "https://randomtarotcard.com/TheEmpress.jpg"),
    Card("The Emperor", "https://randomtarotcard.com/TheEmperor.jpg"),
    Card("The Hierophant", "https://randomtarotcard.com/TheHierophant.jpg"),
    Card("The Lovers", "https://randomtarotcard.com/TheLovers.jpg"),
    Card("The Chariot", "https://randomtarotcard.com/TheChariot.jpg"),
    Card("Strength", "https://randomtarotcard.com/Strength.jpg"),
    Card("The Hermit", "https://randomtarotcard.com/TheHermit.jpg"),
    Card("Wheel of Fortune", "https://randomtarotcard.com/WheelofFortune.jpg"),
    Card("Justice", "https://randomtarotcard.com/Justice.jpg"),
    Card("The Hanged Man", "https://randomtarotcard.com/TheHangedMan.jpg"),
    Card("Death", "https://randomtarotcard.com/Death.jpg"),
    Card("Temperance", "https://randomtarotcard.com/Temperance.jpg"),
    Card("The Devil", "https://randomtarotcard.com/TheDevil.jpg"),
    Card("The Tower", "https://randomtarotcard.com/TheTower.jpg"),
    Card("The Star", "https://randomtarotcard.com/TheStar.jpg"),
    Card("The Moon", "https://randomtarotcard.com/TheMoon.jpg"),
    Card("The Sun", "https://randomtarotcard.com/TheSun.jpg"),
    Card("Judgement", "https://randomtarotcard.com/Judgement.jpg"),
    Card("The World", "https://randomtarotcard.com/TheWorld.jpg")
  ]

  /** A position in the catalog: what one uniform random pick produces. */
  type CardIndex = i: nat | i < |TarotCards|

  /** Every card is one of the catalog's entries. */
  predicate AllFromCatalog(cards: seq<Card>) {
    forall k :: 0 <= k < |cards| ==> cards[k] in TarotCards
  }

  /**
   * Draws `size` cards with replacement; `picks` supplies the random index
   * chosen for each slot, in slot order.
   */
  function GetRandomCards(size: nat, picks: seq<CardIndex>): (cards: seq<Card>)
    requires |picks| == size
    ensures |cards| == size
    ensures forall k :: 0 <= k < size ==> cards[k] == TarotCards[picks[k]]
    ensures AllFromCatalog(cards)
  {
    seq(size, k requires 0 <= k < size => TarotCards[picks[k]])
  }

  /** Catalog positions of the cards of `hand`, one per card. */
  ghost function PicksFor(hand: seq<Card>): (picks: seq<CardIndex>)
    requires AllFromCatalog(hand)
    ensures |picks| == |hand|
    ensures forall k :: 0 <= k < |hand| ==> TarotCards[picks[k]] == hand[k]
  {
    seq(|hand|, k requires 0 <= k < |hand| =>
      var i :| 0 <= i < |TarotCards| && TarotCards[i] == hand[k]; i)
  }

  /** Any hand of catalog cards, repeats included, is what the draw gives for some picks. */
  lemma EveryHandCanBeDrawn(hand: seq<Card>)
    requires AllFromCatalog(hand)
    ensures GetRandomCards(|hand|, PicksFor(hand)) == hand
  {
  }

  /** The catalog has 22 cards; the first is the Fool and the fourteenth is Death. */
  lemma CatalogShape()
    ensures |TarotCards| == 22
    ensures TarotCards[0].name == "The Fool" && TarotCards[13].name == "Death"
  {
  }

  // The comma check is split in two halves of the catalog to keep each proof small.
  lemma LowerNameHasNoComma(i: nat)
    requires i < 11
    ensures ',' !in TarotCards[i].name
  {
  }

  lemma UpperNameHasNoComma(i: nat)
    requires 11 <= i < |TarotCards|
    ensures ',' !in TarotCards[i].name
  {
  }

  /** No name of a card drawn from the catalog contains a comma. */
  lemma NamesHaveNoComma(cards: seq<Card>)
    requires AllFromCatalog(cards)
    ensures forall k :: 0 <= k < |cards| ==> ',' !in cards[k].name
  {
    forall k | 0 <= k < |cards| ensures ',' !in cards[k].name {
      var i :| 0 <= i < |TarotCards| && TarotCards[i] == cards[k];
      if i < 11 {
        LowerNameHasNoComma(i);
      } else {
        UpperNameHasNoComma(i);
      }
    }
  }
}
