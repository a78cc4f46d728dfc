# Ethereal romance: slide controller and message generator

A model of the only logic in the ethereal-romance page: a letter of six chapters
that the reader opens once and then pages through, forward and back. Each chapter's
message is asked of a text-generation model the first time the chapter is shown and
kept in a six-slot cache, where an empty string means "not loaded yet".

- `gemini.dfy`, module `Gemini` (services/gemini.ts): the six prompts, the request
  text sent for a chapter, and `generateLoveStep`'s choice between the model's text,
  the "empty answer" fallback and the "error" fallback. The model call itself is a
  parameter `api: string -> Outcome`: for each request text, the model either answers
  (with a text that may be missing or empty) or throws.
- `app.dfy`, module `App` (App.tsx): the component state as the class `Slideshow`
  (`revealed`, `currentPage`, a six-slot `array<string>` of messages, `loading`) and
  the handlers `loadStep`, `handleReveal`, `nextPage`, `prevPage` as methods. The
  chapter card that the page renders is `View`. A ghost log `fetched` records, in
  order, the chapters for which the model was called.

What is proved:

- every outcome of the model call, an error included, becomes a non-empty string,
  and a non-empty answer is passed through unchanged;
- with each handler running to completion, `loadStep` never refetches or overwrites
  a filled slot. On an empty slot it writes that slot only, with the generator's
  text, and the slot ends non-empty;
- `nextPage` and `prevPage` are clamped moves. `prevPage` never loads and never
  touches the cache;
- a second `handleReveal` after chapter 0 is loaded changes no message;
- across any sequence of handlers, `currentPage` stays in 0..5 and the cache keeps
  six slots, so `titles[currentPage]` and `messages[currentPage]` are always in
  bounds;
- with each handler running to completion, once the letter is revealed the card
  always quotes a non-empty message;
- with each handler running to completion, the model is called at most once per
  chapter, so at most six times per session;
- a session where every call throws ends on chapter 6 quoting the error fallback.

The code has none of the following, so neither does the model:

- a fallback per chapter: each fallback is one fixed string, the same for every chapter;
- a decision step or a yes/no choice: the last button has no handler;
- loading of all chapters at once: each chapter is loaded when first shown;
- disabling navigation while a load is pending;
- a guard in `handleReveal` against a second call.

## Model

| member | source | states |
|---|---|---|
| `Gemini.RequestText` | services/gemini.ts:6-19 | the request always ends with the fixed Spanish suffix; for a chapter 0..5 it is exactly that chapter's prompt followed by the suffix |
| `Gemini.RequestsDistinct` | services/gemini.ts:6-13 | the six chapters send six different requests: one prompt of its own per page |
| `Gemini.Choose` | services/gemini.ts:16-28 | the result is never empty; a non-empty answer is returned unchanged; an empty or missing text gives the "mapa" fallback; a thrown error gives the "distancia" fallback and does not reach the caller |
| `Gemini.GenerateLoveStep` | services/gemini.ts:15-29 | whatever the model does with the chapter's request, the caller gets a non-empty string: the model's text when it answers with a non-empty one, the "mapa" fallback when it answers without text, the "distancia" fallback when it throws |
| `App.OnePromptPerChapter` | services/gemini.ts:6-13 | the prompt table has one entry per chapter, as many as the chapter titles (six) |
| `App.Slideshow.constructor` | App.tsx:13-16 | initial state: not revealed, page 0, six empty messages, not loading, no call made |
| `App.Slideshow.LoadStep` | App.tsx:32-40 | a filled slot: nothing changes, no call is made. An empty slot: only that slot is written, with the generator's text, in a fresh copy of the six-slot cache, and exactly one call is logged. In both cases the slot ends non-empty, `loading` ends false, and no cached text is lost |
| `App.Slideshow.HandleReveal` | App.tsx:42-49 | sets `revealed` and loads chapter 0, leaving the page as it was; when chapter 0 is already loaded the messages are unchanged |
| `App.Slideshow.NextPage` | App.tsx:51-57 | below chapter 5 the page goes up by exactly one and the new page is loaded as `LoadStep` does; at chapter 5 nothing changes; the invariant (page in 0..5, every reached chapter loaded) is kept |
| `App.Slideshow.PrevPage` | App.tsx:59-61 | above chapter 0 the page goes down by exactly one; at 0 it stays; messages, `loading` and `revealed` are untouched |
| `App.Slideshow.View` | App.tsx:118-181 | with each handler running to completion: before reveal, the intro; after it, chapter `currentPage + 1` with `titles[currentPage]`, quoting `messages[currentPage]`, which is never empty |
| `App.Slideshow.CallsBounded` | App.tsx:32-38 | with each handler running to completion, since a filled slot is never refetched, the model is called at most six times in a session |
| `App.EveryCallFails` | App.tsx:42-57 | reveal then five forward moves with every model call throwing ends on chapter 6 (page 5), titled "El Sello de la Eternidad", quoting the error fallback |

## Left out

- Audio (App.tsx:17-30, 43-46, 227-232): browser playback and muting, with errors swallowed; not part of this model.
- Rendering other than the chapter card: layout, animation props, the progress bar percentage (App.tsx:156), the page dots, and the final "NUESTRA UNIÓN" button, which has no handler.
- components/SakuraPetals.tsx, components/HorseSpirit.tsx and components/WisteriaFlower.tsx: per-frame three.js animation on floating point and `Math.random`; no contract to state.
- The `GoogleGenAI` client, its model name and temperature, the API key and `console.error` (services/gemini.ts:2-4, 17-23, 26): an external network library. Its outcome for each request is the `api` parameter.
- React's asynchronous updates: each handler runs to completion before the next. `loadStep` in the component copies the `messages` captured when the page last rendered, so two loads in flight at once can drop a freshly loaded slot; the model does not capture stale closures or interleaved awaits. For the same reason `loading` is true only inside `LoadStep`, and the spinner is never observed between handlers.
- App.Slideshow.View: holds only with each handler running to completion. In the component, from page 0 two quick presses of next start loads of pages 1 and 2; if page 1's answer arrives first, that load clears `loading` while slot 2 is still empty, so the card quotes an empty message, and the page-2 load then writes an array that lacks slot 1's text (App.tsx:33-39, 173-179).
- App.Slideshow.CallsBounded: holds only with each handler running to completion. In the component, after reveal, pressing next, prev, next before the first answer arrives calls the generator for page 1 twice, because there is no guard against a second request while one is pending; repeating this gives any number of calls (App.tsx:32-35, 51-61, 186-205).
- App.Slideshow.LoadStep: requires a chapter index 0..5, which is all the component's callers pass. In the component, an index outside 0..5 reads `undefined`, so the generator is still called, with "undefined" plus the suffix as its request, and `loading` is set. An index above 5 would then grow the array; a negative one would add a property outside the array, and the length stays 6.
- App.EveryCallFails: does not state that exactly six calls are made; `CallsBounded` gives at most six.
