# Blood vial health bars

A model of `BloodVialHealthBar` (scripts/blood-vial.js), the Foundry VTT
module that replaces the hit point bars of D&D 5e tokens with "blood vials"
and adds a vial beside the hit point input of each actor sheet. A vial is a
container element tagged with the module id, holding a liquid element whose
width is the health percentage, whose class is one of four severity bands
(critical, wounded, healthy, full), and which holds five decorative bubbles
when the bubbles setting is on.

The model has five modules:

- `JsValues` (js_values.dfy): the JavaScript values the module reads, their
  truthiness, `a || b`, `Number(x)` and the printing of whole numbers.
- `Health` (health.dfy): `getActorHP`, `isSystemSupported`, and the
  sanitising, percentage, band, rounding and tooltip arithmetic of
  `updateHealthBar`, as functions over `real`.
- `Vials` (vial.dfy): one vial. `VialState` is its value, `Vial` the element
  the page holds; `UpdateHealthBar` and `CreateBloodVial` change or build
  one in place, and the bubble loops are methods of `Vial`.
- `Reconcile` (reconcile.dfy): the page as a sequence of nodes (token bars,
  hit point inputs, vials, other elements), and what `replaceHealthBars`,
  `enhanceActorSheets` and `updateBubbleVisibility` do to a snapshot of it,
  as functions, with the guard properties proved about them.
- `Dom` (document.dfy): the live page, a `Document` whose nodes hold `Vial`
  objects; the four page-walking operations are loops that change it in
  place, each proved to produce what the `Reconcile` function (or, for
  `cleanup`, `Untagged`) says.

Host lookups are parameters: `game.system.id` is a string,
`canvas.tokens.get` a map from token id to `TokenDoc`, `game.actors.get` a
map from actor id to `Actor`, and `game.settings.get(…, "enableBubbles")`
an `Option<bool>` (`None` when reading the setting throws).

Three details of the code the model keeps:

- the duplicate guard looks at the page around the element: a token bar is
  skipped when its parent element holds a vial as a direct child, a sheet
  input when its form holds a vial (scripts/blood-vial.js:168, :195), so two
  tokens of one actor each get a vial;
- the container carries the module id in `data-module-id`, and its element
  id is `"blood-vial-" + id`, or empty for an empty id
  (scripts/blood-vial.js:73-74);
- `cleanup` removes every element whose `data-module-id` is the module's
  name (scripts/blood-vial.js:260).

## Model

| member | source | states |
|---|---|---|
| JsValues.Truthy | scripts/blood-vial.js:48-49 | ECMAScript ToBoolean: `undefined`, `null`, `false`, 0 and `""` are falsy, everything else truthy; used through `Or`, whose contract states what `\|\|` returns |
| JsValues.Or | scripts/blood-vial.js:48-49 | `a \|\| b` is `a` when `a` is truthy and `b` otherwise, and is truthy exactly when one of them is |
| JsValues.ToNumber | scripts/blood-vial.js:121-122 | `Number(v)`: a number is itself, `undefined` and objects are NaN, a digit string is a non-negative number |
| JsValues.NumberOr | scripts/blood-vial.js:121-122 | `Number(v) \|\| d` is the converted number unless it is NaN or 0, in which case it is `d` |
| JsValues.NatToString | scripts/blood-vial.js:142 | a whole number prints as a non-empty digit string with no leading zero, one digit exactly below 10 |
| JsValues.NatToStringRoundTrip | scripts/blood-vial.js:142 | reading back the printed digits gives the number again |
| JsValues.NatToStringNumberRoundTrip | scripts/blood-vial.js:142 | `Number` of the printed text of a whole number is that number |
| JsValues.WholeToString | scripts/blood-vial.js:142 | the printed text of a whole real below 2^53 converts back to that real |
| Health.IsSystemSupported | scripts/blood-vial.js:15-17 | the running system is supported exactly when its id is `dnd5e` |
| Health.GetActorHP | scripts/blood-vial.js:24-55 | a record is returned exactly when the actor has an hp record whose value and max are numbers and max is positive; then max is kept, value is raised to 0 when negative, and a falsy temp or tempmax becomes 0 |
| Health.SanitizedCurrent | scripts/blood-vial.js:121 | the sanitised current is never negative, is a non-negative number itself, and is 0 for a negative number, a falsy value or a value `Number` turns into NaN |
| Health.SanitizedMax | scripts/blood-vial.js:122 | the sanitised max is at least 1, is a number of at least 1 itself, and is 1 for a smaller number, a falsy value or a value `Number` turns into NaN |
| Health.Percentage | scripts/blood-vial.js:121-124 | the fill lies in [0, 100]; it is 100 exactly when current reaches max, 0 exactly when current is 0, and otherwise 100 × current / max |
| Health.PercentOf | scripts/blood-vial.js:124 | the clamped percentage of sanitised operands lies in [0, 100], is 100 exactly when c ≥ m, 0 exactly when c = 0, and p × m = 100c below the clamp |
| Health.BandOf | scripts/blood-vial.js:131-139 | the band for a percentage; `BandByRatio` states which band each ratio of current to max selects, and `BandMonotone` that more hit points never give a worse one |
| Health.BandByRatio | scripts/blood-vial.js:128-139 | the band, stated without division: critical iff 4c ≤ m, wounded iff 2c ≤ m < 4c, healthy iff c < m < 2c, full iff m ≤ c |
| Health.BandMonotone | scripts/blood-vial.js:128-139 | more current hit points never give a worse band for the same max |
| Health.Boundaries | scripts/blood-vial.js:128-139 | current at or above max is full; current 0 is critical |
| Health.ZeroMaxReadAsOne | scripts/blood-vial.js:122-124 | a max of 0 is read as 1, so 5 of 0 is 100% and full |
| Health.Round | scripts/blood-vial.js:142 | `Math.round` gives the integer within half of its argument, halves rounding up |
| Health.TooltipFor | scripts/blood-vial.js:142 | the tooltip's current is non-negative, its max at least 1, its percent in [0, 100], 100 when current reaches max and 0 when current is 0 |
| Health.TooltipText | scripts/blood-vial.js:142 | the title text `<current> / <max> HP (<percent>%)`; `SevenOfFortyText` and `FortyOfFortyText` state the text for two inputs |
| Health.WholeHpPrintable | scripts/blood-vial.js:142 | whole hit points below 2^53 always give a tooltip whose text can be written out |
| Health.SevenOfForty | scripts/blood-vial.js:121-142 | 7 of 40 is 17.5%, critical, with a tooltip of 7, 40 and 18 percent |
| Health.SevenOfFortyText | scripts/blood-vial.js:142 | that tooltip reads `7 / 40 HP (18%)` |
| Health.FortyOfForty | scripts/blood-vial.js:121-142 | 40 of 40 is 100%, full, with a tooltip of 40, 40 and 100 percent |
| Health.FortyOfFortyText | scripts/blood-vial.js:142 | that tooltip reads `40 / 40 HP (100%)` |
| Vials.BandClass | scripts/blood-vial.js:128-139 | each band's class name is one of the four names the update removes |
| Vials.BandClassInjective | scripts/blood-vial.js:131-139 | different bands add different class names |
| Vials.Updated | scripts/blood-vial.js:108-143 | the state an update leaves; `UpdateShowsOneBand`, `UpdateIdempotent` and `UpdateForgetsPreviousDisplay` state what it shows |
| Vials.UpdateShowsOneBand | scripts/blood-vial.js:108-143 | after an update the liquid carries exactly one band class, the percentage's, keeps its other classes, has the percentage as width and the new tooltip; without a liquid nothing changes |
| Vials.UpdateIdempotent | scripts/blood-vial.js:127-142 | updating twice with the same numbers leaves the state updating once does |
| Vials.UpdateForgetsPreviousDisplay | scripts/blood-vial.js:124-142 | the result of an update does not depend on the width, band or tooltip shown before |
| Vials.CreatedOrNull | scripts/blood-vial.js:64-100 | nothing is built exactly when current or max is not a number or max ≤ 0; otherwise the vial is tagged with the module id, has id `blood-vial-<id>` (empty for an empty id), a liquid with exactly its base class and one band class, the percentage as width, the tooltip, and 5 bubbles exactly when the setting reads true, else 0 |
| Vials.AcceptedHpCreatesVial | scripts/blood-vial.js:164-171 | hit points accepted by `getActorHP` always produce a vial, filled to the sanitised percentage |
| Vials.Rebubbled | scripts/blood-vial.js:228-243 | a vial with a liquid ends with 5 bubbles when enabled and 0 otherwise; nothing but the bubble count changes; a container without a liquid is left exactly as it was |
| Vials.Vial.constructor | scripts/blood-vial.js:71-78 | a new container with the given id and module tag holds an empty `blood-liquid` with no band, tooltip or bubbles |
| Vials.Vial.AppendBubble | scripts/blood-vial.js:84-86 | one bubble is added and nothing else changes |
| Vials.Vial.AppendBubbles | scripts/blood-vial.js:83-87 | the loop adds exactly 5 bubbles and nothing else changes |
| Vials.Vial.RemoveBubbles | scripts/blood-vial.js:233 | the loop leaves no bubble and changes nothing else |
| Vials.Vial.RefreshBubbles | scripts/blood-vial.js:229-243 | the container's new state is `Rebubbled` of its old state |
| Vials.UpdateHealthBar | scripts/blood-vial.js:108-143 | a present container's new state is `Updated` of its old state (so `UpdateShowsOneBand` and `UpdateIdempotent` apply) |
| Vials.CreateBloodVial | scripts/blood-vial.js:64-100 | null exactly when `CreatedOrNull` is nothing; otherwise a fresh vial in exactly the state `CreatedOrNull` describes |
| Reconcile.BarVial | scripts/blood-vial.js:158-171 | the vial a bar's token would get: nothing when the token, its actor or valid hit points are missing; stated through `BarVialCases`, `ReplaceStepShape` and `Vials.AcceptedHpCreatesVial` |
| Reconcile.BarVialCases | scripts/blood-vial.js:158-171 | a bar gets a vial exactly when it has a token id, the token is known, the token has an actor and that actor's hit points are accepted |
| Reconcile.HasVialUnder | scripts/blood-vial.js:168 | whether a vial sits directly under the given parent; the source's `querySelector` also finds one nested deeper (see "The DOM tree" under Left out) |
| Reconcile.TokenVial | scripts/blood-vial.js:158-172 | `BarVial` for a bar whose parent holds no vial, nothing otherwise; `ReplaceStepShape` states the guard |
| Reconcile.ReplaceStep | scripts/blood-vial.js:157-177 | one token turn keeps the page's length; `ReplaceStepOnlyAt` and `ReplaceStepShape` state which node it may change and how |
| Reconcile.ReplaceStepOnlyAt | scripts/blood-vial.js:173 | one token turn leaves every node other than the bar it visits unchanged |
| Reconcile.ReplaceStepShape | scripts/blood-vial.js:167-174 | one token turn only turns a bar into a module-tagged vial under the same parent, and only when that parent had no vial |
| Reconcile.ReplaceFrom | scripts/blood-vial.js:156-178 | the token loop only turns bars into module-tagged vials, and never leaves two vials under one parent unless both were there before |
| Reconcile.ReplaceAll | scripts/blood-vial.js:148-182 | as `ReplaceFrom`; on an unsupported system the page is unchanged |
| Reconcile.ReplaceAllKeepsOneVialPerParent | scripts/blood-vial.js:167-173 | a page with at most one vial per parent keeps that property through the token pass |
| Reconcile.ReplaceAllSettles | scripts/blood-vial.js:156-178 | after the token pass no bar is left that the pass would still replace |
| Reconcile.ReplaceAllIdempotent | scripts/blood-vial.js:167-168 | running the token pass again on its own result changes nothing |
| Reconcile.SheetActorId | scripts/blood-vial.js:197 | the form's actor id, else that of the closest element carrying one, else empty; its result feeds `InputVial` |
| Reconcile.InputVial | scripts/blood-vial.js:197-206 | the vial a hit point input's sheet would get: nothing when no actor id is found, the actor is unknown or its hit points are rejected; stated through `InputVialCases`, `EnhanceStepShape` and `Vials.AcceptedHpCreatesVial` |
| Reconcile.InputVialCases | scripts/blood-vial.js:197-206 | an input gets a vial exactly when an actor id is found, the actor is known and its hit points are accepted |
| Reconcile.HasVialInForm | scripts/blood-vial.js:195 | whether any vial sits anywhere in the given form, as `form.querySelector` finds it |
| Reconcile.SheetVial | scripts/blood-vial.js:194-207 | `InputVial` for an input inside a form that holds no vial, nothing otherwise; `EnhanceStepShape` states the guard |
| Reconcile.EnhanceStep | scripts/blood-vial.js:193-212 | one sheet turn never shortens the page; `EnhanceStepShape` states what it may append |
| Reconcile.EnhanceFrom | scripts/blood-vial.js:192-213 | the sheet loop over the nodes present when it began never shortens the page; `EnhanceFromShape` states what it appends |
| Reconcile.EnhanceStepShape | scripts/blood-vial.js:194-209 | one sheet turn only appends a module-tagged vial beside a hit point input in a form, and only when that form had no vial |
| Reconcile.EnhanceFromShape | scripts/blood-vial.js:192-213 | the sheet loop keeps the page as a prefix, appends only such vials, and never leaves two vials in one form unless both were there before |
| Reconcile.EnhanceAll | scripts/blood-vial.js:187-218 | as `EnhanceFromShape`; on an unsupported system the page is unchanged |
| Reconcile.EnhanceAllKeepsOneVialPerForm | scripts/blood-vial.js:194-195 | a page with at most one vial per form keeps that property through the sheet pass |
| Reconcile.EnhanceAllSettles | scripts/blood-vial.js:192-213 | after the sheet pass no input is left that the pass would still give a vial |
| Reconcile.EnhanceAllIdempotent | scripts/blood-vial.js:194-195 | running the sheet pass again on its own result changes nothing |
| Reconcile.RefreshNode | scripts/blood-vial.js:228-243 | one node after the reset keeps its kind, parent and form; a vial changes only in its bubbles, and one with a liquid ends with 5 bubbles when enabled and 0 otherwise; a vial without a liquid and every other node are unchanged |
| Reconcile.RefreshAll | scripts/blood-vial.js:223-253 | every vial with a liquid ends with 5 bubbles when enabled and 0 otherwise; vials change only in their bubbles; a vial without a liquid and every other node are not changed at all |
| Reconcile.RefreshAllIdempotent | scripts/blood-vial.js:228-243 | resetting bubbles twice with the same setting is the same as once |
| Dom.Tagged | scripts/blood-vial.js:260 | the node matches `[data-module-id="blood-vial-health"]`; used by `Untagged` and the `Cleanup` contract |
| Dom.Untagged | scripts/blood-vial.js:260-262 | the page without its tagged nodes, in order; `UntaggedCounts` and `UntaggedMembers` state what is kept |
| Dom.UntaggedCounts | scripts/blood-vial.js:260-262 | removing the tagged elements drops every copy of every tagged node and keeps every copy of every other node |
| Dom.UntaggedMembers | scripts/blood-vial.js:260-262 | a node survives the removal exactly when it was on the page and is not tagged |
| Dom.UntaggedSkips | scripts/blood-vial.js:260-262 | removing one tagged node first does not change what removing all of them leaves |
| Dom.Document.ReplaceAt | scripts/blood-vial.js:157-177 | one turn of the token loop changes the page snapshot as `ReplaceStep` says; new vials are fresh |
| Dom.Document.ReplaceHealthBars | scripts/blood-vial.js:148-182 | the page snapshot becomes what `ReplaceAll` gives for the old one; new vials are fresh |
| Dom.Document.ReplaceEach | scripts/blood-vial.js:156-178 | the loop visits every node once, in order, and leaves the snapshot `ReplaceFrom` gives for the old one; new vials are fresh |
| Dom.Document.EnhanceAt | scripts/blood-vial.js:193-212 | one turn of the sheet loop changes the page snapshot as `EnhanceStep` says; new vials are fresh |
| Dom.Document.EnhanceActorSheets | scripts/blood-vial.js:187-218 | the page snapshot becomes what `EnhanceAll` gives for the old one; new vials are fresh |
| Dom.Document.EnhanceEach | scripts/blood-vial.js:192-213 | the loop over the nodes present at its start leaves the snapshot `EnhanceFrom` gives for the old one; new vials are fresh |
| Dom.Document.UpdateBubbleVisibility | scripts/blood-vial.js:223-253 | with the setting read, the page snapshot becomes `RefreshAll` of the old one, even when one vial object sits in two places; when reading fails nothing changes |
| Dom.Document.Cleanup | scripts/blood-vial.js:258-267 | the page becomes `Untagged` of the old page: no tagged node is left and every untagged node stays, in order |

## Left out

- Hook registration and the lifecycle handlers (scripts/blood-vial.js:271-385), including the `setTimeout` delays and the "hp present in the changes" check: host event plumbing.
- Settings registration, localisation and `window.location.reload`: host APIs. The bubbles setting is an input (`Option<bool>`).
- The CSS custom property `--bubble-display` set by `updateBubbleVisibility` (scripts/blood-vial.js:246-249): styling outside the page model.
- Console logging, and the `try`/`catch` blocks: an operation that would throw is modelled as returning without change (`None` for the setting read).
- The DOM tree: `querySelector` and `closest` become the node fields `parent`, `form`, `tokenId`, `formActorId` and `closestActorId`; nesting is flattened, so removing an element in `cleanup` does not also remove elements nested inside it, and the token guard (`Reconcile.HasVialUnder`) sees only a vial that is a direct child of the bar's parent, where `bar.parentNode.querySelector` (scripts/blood-vial.js:168) also finds one nested deeper.
- Dom.Document.EnhanceActorSheets: the vial is appended at the end of the node sequence rather than after the input's last sibling; only its parent and form are kept.
- IEEE-754: numbers are exact reals; NaN and the infinities are never hit point values (a NaN `hp.value` passes `typeof` in JavaScript but is not modelled), and the division in the percentage is exact. This shows in the tooltip: for 57 of 200 JavaScript computes 28.499999999999996 and prints "(28%)", where the model's exact 28.5 rounds to 29.
- JsValues.ToNumber: only the empty string and plain decimal digit strings convert; every other string (signs, decimals, exponents, whitespace) reads as NaN, and objects always read as NaN.
- Health.TooltipText: the tooltip text is written out only for whole hit points below 2^53, which JavaScript prints digit for digit; other numbers (2^64 prints as 18446744073709552000) keep the structured `Tooltip`, since JavaScript's shortest round-trip number printing is not modelled.
- Health.GetActorHP: an actor whose `system.attributes.hp` is missing or falsy is `hp == None`; an hp value that is truthy but not an object is not distinguished from a record with missing fields.
