# Tarot prophecy session — a Dafny model

The application draws three random major-arcana cards. The user swipes through them and chooses some. The chosen card names go into a prompt for a chat-completion service. The answer comes back as a "prophecy" and is shown one paragraph at a time. This project models the session core of `src/App.tsx` as pure functions over an immutable session record and proves its properties:

- `Catalog` — the fixed 22-card deck and the random initial draw. The randomness is an input: one catalog index per drawn card.
- `Session` — the session record `State` (`queue`, `chosen`, `completion`, `loading`, `error`) and its transitions:
  - the initial draw;
  - the swipe reducer over `Up | Down | Left | Other`;
  - sending the prompt;
  - the success and failure handlers of the request.
  - An `Event` type, `Step` and `Run` compose these transitions.
- `Prompt` — the prompt template: a fixed preamble, the card names joined by `", "`, then a fixed question. A reader function, `ReadNames`, gets the names back out of a prompt.
- `Paragraphs` — how the prophecy is displayed: strip one leading blank line, then split at every `"\n\n"`.
- `Strings` — JavaScript's `Array.prototype.join` and `String.prototype.split`, with a non-empty string separator. `Split` follows the ECMAScript algorithm: it scans left to right and cuts non-overlapping occurrences, leftmost first.
- `Wrappers` — `Option`, standing for JavaScript's `undefined` / `null`.

Behaviour of the code that is easy to misread:

- A failed request leaves `loading` true. The catch handler never clears it.
- Every swipe label other than `"up"`, `"down"` and `"left"` chooses the card, not only `"right"`.
- An empty `choices` array in a reply makes `.message` throw. The failure handler then runs; the empty array is not read as a missing answer.
- Duplicates are allowed in a draw, so the same card can sit in both the queue and the chosen list. The accounting between the two is stated with multisets, not as disjointness.

## Model

| member | source | states |
|---|---|---|
| `Catalog.GetRandomCards` | src/App.tsx:63-68 | drawing `size` cards gives exactly `size` cards; slot k is the catalog card at the k-th random index; every card is a catalog card |
| `Catalog.EveryHandCanBeDrawn` | src/App.tsx:63-68 | the draw is with replacement: any sequence of catalog cards, repeats included, is produced by some choice of random indices |
| `Catalog.CatalogShape` | src/App.tsx:23-61 | the catalog has 22 cards, starting with "The Fool"; entry 13 is "Death" |
| `Catalog.NamesHaveNoComma` | src/App.tsx:23-61 | no catalog card name contains a comma, so a name cannot be confused with the ", " separator |
| `Session.DrawInitial` | src/App.tsx:84-87 | the initial draw replaces the queue with exactly three catalog cards, in pick order; everything else is unchanged |
| `Session.ParseDirection` | src/App.tsx:91-97 | a gesture is Up, Down or Left exactly when its label is "up", "down" or "left"; every other label, unknown ones included, is Other |
| `Session.Destructure` | src/App.tsx:95 | `[head, ...rest]` of an empty queue gives an undefined head and an empty rest; otherwise the queue is the head followed by the rest |
| `Session.Swipe` | src/App.tsx:89-102 | up/down leave queue and chosen unchanged. Left makes the queue its tail, keeps chosen, and queue+chosen shrink by exactly the front card (counted as a multiset). Other makes the queue its tail and appends the old front to chosen, preserving the multiset of queue+chosen and the order of earlier choices. Request fields are never touched |
| `Session.SendPrompt` | src/App.tsx:104-108 | sending sets loading and changes nothing else. For a non-empty hand of catalog cards, the prompt sent lists exactly the chosen names, in choice order |
| `Session.ReadAnswer` | src/App.tsx:121 | optional chaining yields the first choice's text when present. It yields nullish when the reply, its choices or the content is missing. It throws exactly when `choices` is an empty array |
| `Session.Resolve` | src/App.tsx:119-128 | a non-empty answer becomes the completion, and an empty or missing one becomes "No answer 🤷‍♂️". Loading ends and the completion is never empty afterwards. A throwing read behaves as a failure; queue and chosen are unchanged |
| `Session.Reject` | src/App.tsx:125-128 | a failure sets the error flag and leaves completion, loading, queue and chosen unchanged |
| `Session.Step` | src/App.tsx:84-128 | no event clears the error flag or removes earlier chosen cards, and every event keeps all session cards in the catalog |
| `Session.RunKeepsInvariants` | src/App.tsx:84-128 | along any possible sequence of events, cards stay catalog cards, the chosen list only grows at its end, and the error flag stays set once set |
| `Session.FailureKeepsLoading` | src/App.tsx:108-128 | after sending and then failing, the session is still loading, has the error flag set, and shows the old prophecy |
| `Session.UnknownLabelChooses` | src/App.tsx:89-101 | a swipe whose label is not up, down or left chooses the front card, as a right swipe does |
| `Prompt.Names` | src/App.tsx:71-72 | the names are the cards' names in card order |
| `Prompt.GeneratePrompt` | src/App.tsx:70-74 | the prompt starts with the fixed preamble and ends with the fixed question |
| `Prompt.PromptListsNames` | src/App.tsx:70-74 | for a non-empty hand whose names have no comma, reading the names back out of the prompt gives exactly the hand's names in order |
| `Prompt.CatalogPromptListsNames` | src/App.tsx:70-74 | the same round trip for every non-empty hand of catalog cards |
| `Prompt.NamesFollowPreamble` | src/App.tsx:70-74 | the card names joined by ", " appear in the prompt immediately after the preamble |
| `Prompt.FoolThenDeath` | src/App.tsx:70-74 | the prompt for the Fool then Death contains "The Fool, Death", right after the preamble |
| `Strings.Join` | src/App.tsx:71-73 | a join of no parts is empty. A join of one or more parts starts with the first part and ends with the last. With two or more parts, the separator follows the first part |
| `Strings.Split` | src/App.tsx:146 | a split always has at least one piece |
| `Strings.SplitCutsLeftmost` | src/App.tsx:146 | with more than one piece, the first piece ends at the leftmost occurrence of the separator, and the remaining pieces are the split of the text after that occurrence. This holds for a self-overlapping separator such as "\n\n" too |
| `Strings.JoinSplit` | src/App.tsx:146 | joining the pieces of a split with the separator gives back the original text |
| `Strings.SplitPiecesAreClean` | src/App.tsx:146 | no piece of a split contains the separator |
| `Strings.SplitIsSingleIff` | src/App.tsx:146 | a split has a single piece exactly when the text does not contain the separator, and that piece is the whole text |
| `Strings.SplitJoin` | src/App.tsx:72-73 | with a separator that cannot overlap itself (", "), splitting a join of separator-free parts gives the parts back |
| `Paragraphs.StripLeadingBlank` | src/App.tsx:145 | a text starting with "\n\n" loses exactly those two characters; any other text is unchanged |
| `Paragraphs.StripsAtMostOne` | src/App.tsx:145 | of two leading blank lines only the first is removed |
| `Paragraphs.SplitParagraphs` | src/App.tsx:144-146 | there is at least one paragraph. No paragraph contains "\n\n". Joining them with "\n\n" reproduces the stripped text. There is a single paragraph, equal to the stripped text, exactly when that text has no "\n\n". Otherwise the first paragraph ends at the first "\n\n" of the stripped text, and the rest are the split of what follows it, so "A\n\n\nB" gives "A" and "\nB" |
| `Paragraphs.RenderedParagraphs` | src/App.tsx:142-151 | nothing is listed exactly when the completion is empty. Otherwise the listed items are the paragraphs of the completion: none contains "\n\n", and they rejoin to the stripped completion |
| `Paragraphs.SingleBlock` | src/App.tsx:144-146 | a text with no blank line is shown as one paragraph equal to the whole text |
| `Paragraphs.ThreeParagraphs` | src/App.tsx:144-146 | "\n\nA\n\nB\n\nC" is shown as the paragraphs A, B, C |
| `Paragraphs.OneBlock` | src/App.tsx:144-146 | "just one block" is shown as that single paragraph |

## Left out

- The chat-completion client call, its model name, its sampling parameters and the API key from the build environment (src/App.tsx:3, 6, 15-17, 109-118). This is a foreign network call. Only its outcome is modelled, as the `Answered` or `Failed` event.
- `Math.random` and `Math.floor` (src/App.tsx:65) are floating point. They are replaced by a given index below the catalog length for each drawn card.
- The default `size = 1` of `getRandomCards` is not modelled. The session only ever draws 3.
- `queueMicrotask` scheduling and Solid signals (src/App.tsx:77-87) are framework plumbing. The deferred draw is the single `Drawn` event.
- Not modelled, because they are UI and diagnostics: the swipe widget, its snap-back callback, the JSX, the styles, the "Please wait" text and `console.log` / `console.error` (src/App.tsx:4, 90, 127, 132-187).
- The "Send prompt" button is disabled while nothing is chosen (src/App.tsx:171). This guard is not a precondition of `SendPrompt`, which accepts any session as the handler does.
- Session.Swipe: a choosing swipe (`Other`) requires a card on the queue. As written, a right swipe on an empty queue appends `undefined` to the chosen cards. That cannot happen from the UI, because each gesture belongs to a rendered card (src/App.tsx:156-158). A left swipe on an empty queue is modelled and changes nothing.
- Session.ReadAnswer: assumes the first choice always has a `message` object. Only its `content` may be null.
- Concurrent requests are not modelled. Two overlapping requests race their handlers. The event model applies answers one at a time in arrival order and does not pair answers with requests.
