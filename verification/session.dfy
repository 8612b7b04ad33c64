/**
 * The prophecy session: the undrawn queue, the chosen history and the state
 * of the completion request, changed only by the transitions below.
 */
module Session {
  import opened Wrappers
  import opened Catalog
  import opened Prompt

  /** A finished swipe gesture. `Other` stands for "right" and every unrecognised label. */
  datatype Direction = Up | Down | Left | Other

  /** The string comparisons the swipe handler makes on the gesture's label. */
  function ParseDirection(gesture: string): (d: Direction)
    ensures d == Up <==> gesture == "up"
    ensures d == Down <==> gesture == "down"
    ensures d == Left <==> gesture == "left"
  {
    if gesture == "up" then Up
    else if gesture == "down" then Down
    else if gesture == "left" then Left
    else Other
  }

  datatype State = State(
    queue: seq<Card>,     // cards still to swipe; the front is next
    chosen: seq<Card>,    // cards swiped away to the right, in swipe order
    completion: string,   // the last prophecy text
    loading: bool,        // a request was started and has not succeeded
    error: bool           // some request has failed
  )

  /** The state before the first draw: nothing drawn, chosen or answered. */
  const Initial := State([], [], "", false, false)

  /** Shown in place of an empty or missing answer. */
  const NoAnswer := "No answer \U{1F937}\U{200D}\U{2642}\U{FE0F}"

  /** Every card of the session, queued or chosen, is a catalog card. */
  predicate FromCatalog(s: State) {
    AllFromCatalog(s.queue) && AllFromCatalog(s.chosen)
  }

  /** The queued initial draw: the queue becomes three random catalog cards. */
  function DrawInitial(s: State, first: CardIndex, second: CardIndex, third: CardIndex): (r: State)
    ensures |r.queue| == 3 && AllFromCatalog(r.queue)
    ensures r.queue == [TarotCards[first], TarotCards[second], TarotCards[third]]
    ensures r.chosen == s.chosen && r.completion == s.completion
    ensures r.loading == s.loading && r.error == s.error
  {
    s.(queue := GetRandomCards(3, [first, second, third]))
  }

  /**
   * Array destructuring `[head, ...rest]`: on an empty queue the head is
   * undefined (None) and the rest is empty.
   */
  function Destructure(queue: seq<Card>): (r: (Option<Card>, seq<Card>))
    ensures r.0.None? <==> |queue| == 0
    ensures |queue| == 0 ==> r.1 == []
    ensures |queue| > 0 ==> queue == [r.0.value] + r.1
  {
    if |queue| == 0 then (None, []) else (Some(queue[0]), queue[1..])
  }

  /**
   * One swipe. Up and down change nothing; any other direction takes the front
   * card off the queue; left throws it away, every other direction appends it
   * to the chosen cards. A choosing swipe needs a card on the queue: the
   * gesture only exists on a rendered card.
   */
  function Swipe(s: State, d: Direction): (r: State)
    requires d == Other ==> |s.queue| > 0
    ensures r.completion == s.completion && r.loading == s.loading && r.error == s.error
    ensures d == Up || d == Down ==> r.queue == s.queue && r.chosen == s.chosen
    ensures d == Left || d == Other ==> r.queue == if |s.queue| == 0 then [] else s.queue[1..]
    ensures d == Left ==> r.chosen == s.chosen
    ensures d == Other ==> r.chosen == s.chosen + [s.queue[0]]
    ensures d == Other ==> |r.queue| + |r.chosen| == |s.queue| + |s.chosen|
    ensures d == Other ==>
      multiset(r.queue) + multiset(r.chosen) == multiset(s.queue) + multiset(s.chosen)
    ensures d == Left && |s.queue| > 0 ==> |r.queue| + |r.chosen| == |s.queue| + |s.chosen| - 1
    ensures d == Left && |s.queue| > 0 ==>
      multiset(r.queue) + multiset(r.chosen) + multiset{s.queue[0]}
      == multiset(s.queue) + multiset(s.chosen)
  {
    if d == Up || d == Down then s
    else
      var (head, rest) := Destructure(s.queue);
      if d == Left then s.(queue := rest)
      else s.(queue := rest, chosen := s.chosen + [head.value])
  }

  /** The outgoing request: the session after `sendPrompt` and the prompt it sends. */
  datatype Request = Request(next: State, prompt: string)

  /**
   * Builds the prompt from the chosen cards and marks the session as loading.
   * Nothing stops a second request while one is pending.
   */
  function SendPrompt(s: State): (r: Request)
    ensures r.next.loading
    ensures r.next.queue == s.queue && r.next.chosen == s.chosen
    ensures r.next.completion == s.completion && r.next.error == s.error
    ensures |s.chosen| >= 1 && AllFromCatalog(s.chosen) ==> ReadNames(r.prompt) == Some(Names(s.chosen))
  {
    var request := Request(s.(loading := true), GeneratePrompt(s.chosen));
    if |s.chosen| >= 1 && AllFromCatalog(s.chosen) then
      CatalogPromptListsNames(s.chosen); request
    else request
  }

  /** The first choice of a chat-completion reply; its message content may be null (None). */
  datatype Choice = Choice(content: Option<string>)

  /** A resolved reply; `choices` may be missing (None). */
  datatype Reply = Reply(choices: Option<seq<Choice>>)

  /** What `reply?.choices?.[0].message.content` evaluates to. */
  datatype Answer = Text(text: string) | Nullish | Thrown

  /**
   * Optional chaining stops at a missing reply or missing choices, but an
   * empty `choices` array makes `[0]` undefined and `.message` throw.
   */
  function ReadAnswer(reply: Option<Reply>): (a: Answer)
    ensures a.Thrown? <==> reply.Some? && reply.value.choices == Some([])
    ensures a.Text? <==> reply.Some? && reply.value.choices.Some?
                         && |reply.value.choices.value| > 0
                         && reply.value.choices.value[0].content.Some?
    ensures a.Text? ==> a.text == reply.value.choices.value[0].content.value
  {
    match reply
    case None => Nullish
    case Some(Reply(choices)) =>
      match choices
      case None => Nullish
      case Some(cs) =>
        if |cs| == 0 then Thrown
        else match cs[0].content
          case None => Nullish
          case Some(t) => Text(t)
  }

  /** The request failed (the catch handler): only the error flag is set; loading is never cleared. */
  function Reject(s: State): (r: State)
    ensures r.error
    ensures r.queue == s.queue && r.chosen == s.chosen
    ensures r.completion == s.completion && r.loading == s.loading
  {
    s.(error := true)
  }

  /**
   * The request resolved. A non-empty answer becomes the prophecy; an empty or
   * missing one becomes NoAnswer; loading ends. A reply whose read throws
   * falls through to the failure handler.
   */
  function Resolve(s: State, reply: Option<Reply>): (r: State)
    ensures r.queue == s.queue && r.chosen == s.chosen
    ensures ReadAnswer(reply).Thrown? ==> r == Reject(s)
    ensures !ReadAnswer(reply).Thrown? ==> !r.loading && r.error == s.error && |r.completion| > 0
    ensures ReadAnswer(reply).Text? && ReadAnswer(reply).text != "" ==> r.completion == ReadAnswer(reply).text
    ensures ReadAnswer(reply) == Nullish || ReadAnswer(reply) == Text("") ==> r.completion == NoAnswer
  {
    match ReadAnswer(reply)
    case Thrown => Reject(s)
    case Text(t) => s.(completion := if t != "" then t else NoAnswer, loading := false)
    case Nullish => s.(completion := NoAnswer, loading := false)
  }

  /** What can happen to a session. */
  datatype Event =
    | Drawn(first: CardIndex, second: CardIndex, third: CardIndex)
    | Swiped(gesture: string)
    | SendClicked
    | Answered(reply: Option<Reply>)
    | Failed

  /** A choosing swipe can only arrive while a card is rendered. */
  predicate Enabled(s: State, e: Event) {
    e.Swiped? && ParseDirection(e.gesture) == Other ==> |s.queue| > 0
  }

  function Step(s: State, e: Event): (r: State)
    requires Enabled(s, e)
    ensures s.error ==> r.error
    ensures s.chosen <= r.chosen
    ensures FromCatalog(s) ==> FromCatalog(r)
  {
    match e
    case Drawn(a, b, c) => DrawInitial(s, a, b, c)
    case Swiped(gesture) => Swipe(s, ParseDirection(gesture))
    case SendClicked => SendPrompt(s).next
    case Answered(reply) => Resolve(s, reply)
    case Failed => Reject(s)
  }

  /** Applies the events in order; None when some event could not have arrived. */
  function Run(s: State, events: seq<Event>): Option<State>
    decreases |events|
  {
    if |events| == 0 then Some(s)
    else if !Enabled(s, events[0]) then None
    else Run(Step(s, events[0]), events[1..])
  }

  /**
   * Along any possible run: cards stay catalog cards, the chosen history only
   * grows at its end, and the error flag is never cleared.
   */
  lemma {:induction false} RunKeepsInvariants(s: State, events: seq<Event>)
    requires FromCatalog(s)
    requires Run(s, events).Some?
    ensures FromCatalog(Run(s, events).value)
    ensures s.chosen <= Run(s, events).value.chosen
    ensures s.error ==> Run(s, events).value.error
    decreases |events|
  {
    if |events| > 0 {
      var t := Step(s, events[0]);
      RunKeepsInvariants(t, events[1..]);
    }
  }

  /** A failed request leaves the "thinking" state on and the old prophecy in place. */
  lemma FailureKeepsLoading(s: State)
    ensures var r := Step(Step(s, SendClicked), Failed);
      r.loading && r.error && r.completion == s.completion
  {
    var pending := SendPrompt(s).next;
    assert Step(s, SendClicked) == pending;
    assert Step(pending, Failed) == Reject(pending);
  }

  /** Swipe labels other than up, down and left all choose the front card. */
  lemma UnknownLabelChooses(s: State, gesture: string)
    requires gesture != "up" && gesture != "down" && gesture != "left"
    requires |s.queue| > 0
    ensures Step(s, Swiped(gesture)).chosen == s.chosen + [s.queue[0]]
    ensures Step(s, Swiped(gesture)).queue == s.queue[1..]
  {
  }
}
