/**
  The page as the module sees it, and what its three passes over the page do,
  as functions on a snapshot of the page:

  - `ReplaceAll`: `replaceHealthBars`, which swaps each token's health bar for
    a vial unless the bar's parent already holds one;
  - `EnhanceAll`: `enhanceActorSheets`, which appends a vial next to each hit
    point input of a character sheet unless the sheet's form already holds one;
  - `RefreshAll`: `updateBubbleVisibility`, which resets every vial's bubbles.

  The page is flattened into a sequence of nodes. A node records the parent
  element it hangs under and the form that encloses it (if any), which is all
  the two guards look at.
 */
module Reconcile {
  import opened JsValues
  import opened Health
  import opened Vials

  /**
    One element of the page the module cares about. `V` is the vial: an object
    on the live page, its state in a snapshot.
    - `TokenBar`: a `.token-health .bar`; `tokenId` is the `data-token-id` of
      the closest element carrying one.
    - `HpInput`: a character sheet's hit point input; `formActorId` is the
      `data-actor-id` of its form ("" when absent), `closestActorId` that of
      the closest element carrying one.
    - `VialNode`: a `.blood-vial-container`.
    - `Other`: any other element; `tag` is its `data-module-id`.
   */
  datatype Node<V> =
    | TokenBar(parent: nat, form: Option<nat>, tokenId: Option<string>)
    | HpInput(parent: nat, form: Option<nat>, formActorId: string, closestActorId: Option<string>)
    | VialNode(parent: nat, form: Option<nat>, vial: V)
    | Other(parent: nat, form: Option<nat>, tag: Option<string>)

  /** A snapshot of the page: every vial as its state. */
  type Page = seq<Node<VialState>>

  /** A token as `canvas.tokens.get` returns it. */
  datatype TokenDoc = TokenDoc(id: string, actor: Option<Actor>)

  /** `parent.querySelector('.blood-vial-container')` finds something. */
  predicate HasVialUnder<V>(s: seq<Node<V>>, parent: nat)
  {
    exists j :: 0 <= j < |s| && s[j].VialNode? && s[j].parent == parent
  }

  /** `form.querySelector('.blood-vial-container')` finds something. */
  predicate HasVialInForm<V>(s: seq<Node<V>>, form: nat)
  {
    exists j :: 0 <= j < |s| && s[j].VialNode? && s[j].form == Some(form)
  }

  // ---------------------------------------------------------------------
  // Token surface: replaceHealthBars
  // ---------------------------------------------------------------------

  /**
    The vial the token pass would build for a bar, from its token's actor, or
    nothing when the token or its actor cannot be found or the actor's hit
    points are rejected.
   */
  function BarVial(tokenId: Option<string>, tokens: map<string, TokenDoc>, bubbles: Option<bool>): Option<VialState>
  {
    if tokenId.None? || tokenId.value !in tokens then None
    else
      var doc := tokens[tokenId.value];
      if doc.actor.None? then None
      else
        var hp := GetActorHP(doc.actor);
        if hp.None? then None
        else CreatedOrNull(Num(hp.value.value), Num(hp.value.max), doc.id, bubbles)
  }

  /**
    A bar's token gets a vial exactly when the bar names a known token that has
    an actor whose hit points `getActorHP` accepts.
   */
  lemma BarVialCases(tokenId: Option<string>, tokens: map<string, TokenDoc>, bubbles: Option<bool>)
    ensures BarVial(tokenId, tokens, bubbles).Some? <==>
      && tokenId.Some? && tokenId.value in tokens
      && tokens[tokenId.value].actor.Some?
      && GetActorHP(tokens[tokenId.value].actor).Some?
  {
    if tokenId.Some? && tokenId.value in tokens && GetActorHP(tokens[tokenId.value].actor).Some? {
      var doc := tokens[tokenId.value];
      AcceptedHpCreatesVial(doc.actor, doc.id, bubbles);
    }
  }

  /**
    The vial the token pass puts in place of node `i`, or nothing when the
    node is not a bar, `BarVial` gives nothing, or the bar's parent already
    holds a vial.
   */
  function TokenVial(s: Page, i: nat, tokens: map<string, TokenDoc>, bubbles: Option<bool>): (r: Option<VialState>)
    requires i < |s|
  {
    if !s[i].TokenBar? then None
    else match BarVial(s[i].tokenId, tokens, bubbles)
      case None => None
      case Some(v) => if HasVialUnder(s, s[i].parent) then None else Some(v)
  }

  /** One turn of the token loop: `bar.parentNode.replaceChild(vial, bar)` when there is a vial. */
  function ReplaceStep(s: Page, i: nat, tokens: map<string, TokenDoc>, bubbles: Option<bool>): (r: Page)
    requires i < |s|
    ensures |r| == |s|
  {
    match TokenVial(s, i, tokens, bubbles)
    case None => s
    case Some(v) => s[i := VialNode(s[i].parent, s[i].form, v)]
  }

  /** `replaceChild` swaps only the bar itself: every other node stays. */
  lemma ReplaceStepOnlyAt(s: Page, i: nat, tokens: map<string, TokenDoc>, bubbles: Option<bool>)
    requires i < |s|
    ensures forall j :: 0 <= j < |s| && j != i ==> ReplaceStep(s, i, tokens, bubbles)[j] == s[j]
  {
  }

  /**
    `t` is `s` with some bars turned into module-tagged vials under the same
    parent, and every such new vial is the only vial under its parent: two
    vials sharing a parent in `t` were both already there in `s`.
   */
  predicate ReplacedFrom(s: Page, t: Page)
  {
    && |s| == |t|
    && (forall j :: 0 <= j < |s| ==>
          || t[j] == s[j]
          || (&& s[j].TokenBar? && t[j].VialNode?
              && t[j].parent == s[j].parent && t[j].form == s[j].form
              && t[j].vial.moduleId == MODULE_NAME))
    && (forall i, j :: 0 <= i < |t| && 0 <= j < |t| && i != j
          && t[i].VialNode? && t[j].VialNode? && t[i].parent == t[j].parent
          ==> s[i].VialNode? && s[j].VialNode?)
  }

  lemma ReplaceStepShape(s: Page, i: nat, tokens: map<string, TokenDoc>, bubbles: Option<bool>)
    requires i < |s|
    ensures ReplacedFrom(s, ReplaceStep(s, i, tokens, bubbles))
  {
    var t := ReplaceStep(s, i, tokens, bubbles);
    if t != s {
      assert !HasVialUnder(s, s[i].parent);
    }
  }

  lemma ReplacedFromTransitive(s: Page, t: Page, u: Page)
    requires ReplacedFrom(s, t) && ReplacedFrom(t, u)
    ensures ReplacedFrom(s, u)
  {
    forall j | 0 <= j < |s|
      ensures || u[j] == s[j]
              || (&& s[j].TokenBar? && u[j].VialNode?
                  && u[j].parent == s[j].parent && u[j].form == s[j].form
                  && u[j].vial.moduleId == MODULE_NAME)
    {
      if t[j] != s[j] {
        assert !t[j].TokenBar?;
        assert u[j] == t[j];
      }
    }
  }

  /** The token loop from node `i` on. */
  function ReplaceFrom(s: Page, i: nat, tokens: map<string, TokenDoc>, bubbles: Option<bool>): (r: Page)
    decreases |s| - i
    ensures ReplacedFrom(s, r)
  {
    if i >= |s| then s
    else
      var t := ReplaceStep(s, i, tokens, bubbles);
      var r := ReplaceFrom(t, i + 1, tokens, bubbles);
      ReplaceStepShape(s, i, tokens, bubbles);
      ReplacedFromTransitive(s, t, r);
      r
  }

  /**
    `replaceHealthBars`: nothing on an unsupported system; otherwise the token
    loop over every node. It never puts a second vial under one parent.
   */
  function ReplaceAll(s: Page, systemId: string, tokens: map<string, TokenDoc>, bubbles: Option<bool>): (r: Page)
    ensures ReplacedFrom(s, r)
    ensures !IsSystemSupported(systemId) ==> r == s
  {
    if !IsSystemSupported(systemId) then s else ReplaceFrom(s, 0, tokens, bubbles)
  }

  /** On the supported system the token pass is the token loop over the whole page. */
  lemma ReplaceAllLoops(s: Page, systemId: string, tokens: map<string, TokenDoc>, bubbles: Option<bool>)
    requires IsSystemSupported(systemId)
    ensures ReplaceAll(s, systemId, tokens, bubbles) == ReplaceFrom(s, 0, tokens, bubbles)
  {
  }

  /** At most one vial hangs under each parent. */
  predicate OneVialPerParent(s: Page)
  {
    forall i, j :: 0 <= i < |s| && 0 <= j < |s| && i != j && s[i].VialNode? && s[j].VialNode?
      ==> s[i].parent != s[j].parent
  }

  /** The token pass keeps "at most one vial per parent". */
  lemma ReplaceAllKeepsOneVialPerParent(s: Page, systemId: string, tokens: map<string, TokenDoc>, bubbles: Option<bool>)
    requires OneVialPerParent(s)
    ensures OneVialPerParent(ReplaceAll(s, systemId, tokens, bubbles))
  {
    var r := ReplaceAll(s, systemId, tokens, bubbles);
    forall i, j | 0 <= i < |r| && 0 <= j < |r| && i != j && r[i].VialNode? && r[j].VialNode?
      ensures r[i].parent != r[j].parent
    {
    }
  }

  /** The token pass growing `s` into `t` cannot make a settled node unsettled. */
  lemma TokenSettledStays(s: Page, t: Page, j: nat, tokens: map<string, TokenDoc>, bubbles: Option<bool>)
    requires ReplacedFrom(s, t) && j < |s|
    requires TokenVial(s, j, tokens, bubbles).None?
    ensures TokenVial(t, j, tokens, bubbles).None?
  {
    if t[j] == s[j] && HasVialUnder(s, s[j].parent) {
      var k :| 0 <= k < |s| && s[k].VialNode? && s[k].parent == s[j].parent;
      assert t[k] == s[k];
    }
  }

  /** No node before `i` is one the token pass would still replace. */
  predicate TokensSettledBelow(s: Page, i: nat, tokens: map<string, TokenDoc>, bubbles: Option<bool>)
  {
    forall j :: 0 <= j < i && j < |s| ==> TokenVial(s, j, tokens, bubbles).None?
  }

  /** One turn of the token loop settles node `i` and keeps the nodes before it settled. */
  lemma ReplaceStepSettles(s: Page, i: nat, tokens: map<string, TokenDoc>, bubbles: Option<bool>)
    requires i < |s|
    requires TokensSettledBelow(s, i, tokens, bubbles)
    ensures TokensSettledBelow(ReplaceStep(s, i, tokens, bubbles), i + 1, tokens, bubbles)
  {
    var t := ReplaceStep(s, i, tokens, bubbles);
    ReplaceStepShape(s, i, tokens, bubbles);
    forall j | 0 <= j < i + 1 && j < |t|
      ensures TokenVial(t, j, tokens, bubbles).None?
    {
      if j < i {
        TokenSettledStays(s, t, j, tokens, bubbles);
      }
    }
  }

  /** One turn of the token loop, as an equation. */
  lemma ReplaceFromUnfold(s: Page, i: nat, tokens: map<string, TokenDoc>, bubbles: Option<bool>)
    requires i < |s|
    ensures ReplaceFrom(s, i, tokens, bubbles) == ReplaceFrom(ReplaceStep(s, i, tokens, bubbles), i + 1, tokens, bubbles)
  {
  }

  /** The token loop past the last node leaves the page alone. */
  lemma ReplaceFromDone(s: Page, i: nat, tokens: map<string, TokenDoc>, bubbles: Option<bool>)
    requires i >= |s|
    ensures ReplaceFrom(s, i, tokens, bubbles) == s
  {
  }

  lemma {:induction false} ReplaceFromSettles(s: Page, i: nat, tokens: map<string, TokenDoc>, bubbles: Option<bool>)
    requires TokensSettledBelow(s, i, tokens, bubbles)
    ensures var r := ReplaceFrom(s, i, tokens, bubbles);
      TokensSettledBelow(r, |r|, tokens, bubbles)
    decreases |s| - i
  {
    if i >= |s| {
      ReplaceFromDone(s, i, tokens, bubbles);
      assert TokensSettledBelow(s, |s|, tokens, bubbles);
    } else {
      var t := ReplaceStep(s, i, tokens, bubbles);
      ReplaceFromUnfold(s, i, tokens, bubbles);
      ReplaceStepSettles(s, i, tokens, bubbles);
      ReplaceFromSettles(t, i + 1, tokens, bubbles);
    }
  }

  lemma {:induction false} ReplaceFromFixed(s: Page, i: nat, tokens: map<string, TokenDoc>, bubbles: Option<bool>)
    requires TokensSettledBelow(s, |s|, tokens, bubbles)
    ensures ReplaceFrom(s, i, tokens, bubbles) == s
    decreases |s| - i
  {
    if i < |s| {
      assert ReplaceStep(s, i, tokens, bubbles) == s;
      ReplaceFromFixed(s, i + 1, tokens, bubbles);
    }
  }

  /**
    After the token pass no bar is left that the pass would still replace:
    every remaining bar lacks a token, an actor or valid hit points, or
    already has a vial beside it.
   */
  lemma ReplaceAllSettles(s: Page, systemId: string, tokens: map<string, TokenDoc>, bubbles: Option<bool>)
    requires IsSystemSupported(systemId)
    ensures var r := ReplaceAll(s, systemId, tokens, bubbles);
      forall j :: 0 <= j < |r| ==> TokenVial(r, j, tokens, bubbles).None?
  {
    assert ReplaceAll(s, systemId, tokens, bubbles) == ReplaceFrom(s, 0, tokens, bubbles);
    ReplaceFromSettles(s, 0, tokens, bubbles);
    var r := ReplaceFrom(s, 0, tokens, bubbles);
    assert TokensSettledBelow(r, |r|, tokens, bubbles);
  }

  /** Running the token pass a second time on the page it left changes nothing. */
  lemma ReplaceAllIdempotent(s: Page, systemId: string, tokens: map<string, TokenDoc>, bubbles: Option<bool>)
    ensures var r := ReplaceAll(s, systemId, tokens, bubbles);
      ReplaceAll(r, systemId, tokens, bubbles) == r
  {
    if IsSystemSupported(systemId) {
      var r := ReplaceAll(s, systemId, tokens, bubbles);
      ReplaceAllSettles(s, systemId, tokens, bubbles);
      ReplaceFromFixed(r, 0, tokens, bubbles);
    }
  }

  // ---------------------------------------------------------------------
  // Sheet surface: enhanceActorSheets
  // ---------------------------------------------------------------------

  /** `form.dataset.actorId || input.closest('[data-actor-id]')?.dataset.actorId`, "" for none. */
  function SheetActorId(formActorId: string, closestActorId: Option<string>): string
  {
    if formActorId != "" then formActorId
    else match closestActorId
      case Some(id) => id
      case None => ""
  }

  /**
    The vial the sheet pass would build for a hit point input, from the actor
    its sheet names, or nothing when no actor id is found, the actor is
    unknown or its hit points are rejected.
   */
  function InputVial(formActorId: string, closestActorId: Option<string>, actors: map<string, Actor>,
                     bubbles: Option<bool>): Option<VialState>
  {
    var actorId := SheetActorId(formActorId, closestActorId);
    if actorId == "" || actorId !in actors then None
    else
      var actor := actors[actorId];
      var hp := GetActorHP(Some(actor));
      if hp.None? then None
      else CreatedOrNull(Num(hp.value.value), Num(hp.value.max), actor.id, bubbles)
  }

  /**
    A hit point input's sheet gets a vial exactly when an actor id is found,
    it names a known actor, and `getActorHP` accepts that actor's hit points.
   */
  lemma InputVialCases(formActorId: string, closestActorId: Option<string>, actors: map<string, Actor>,
                       bubbles: Option<bool>)
    ensures var id := SheetActorId(formActorId, closestActorId);
      InputVial(formActorId, closestActorId, actors, bubbles).Some? <==>
        id != "" && id in actors && GetActorHP(Some(actors[id])).Some?
  {
    var id := SheetActorId(formActorId, closestActorId);
    if id != "" && id in actors && GetActorHP(Some(actors[id])).Some? {
      AcceptedHpCreatesVial(Some(actors[id]), actors[id].id, bubbles);
    }
  }

  /**
    The vial the sheet pass appends for node `i`, or nothing when the node is
    not a hit point input, is outside a form, its form already holds a vial,
    or `InputVial` gives nothing.
   */
  function SheetVial(s: Page, i: nat, actors: map<string, Actor>, bubbles: Option<bool>): Option<VialState>
    requires i < |s|
  {
    if !s[i].HpInput? || s[i].form.None? || HasVialInForm(s, s[i].form.value) then None
    else InputVial(s[i].formActorId, s[i].closestActorId, actors, bubbles)
  }

  /** One turn of the sheet loop: `input.parentNode.appendChild(vial)` when there is a vial. */
  function EnhanceStep(s: Page, i: nat, actors: map<string, Actor>, bubbles: Option<bool>): (r: Page)
    requires i < |s|
    ensures |r| >= |s|
  {
    match SheetVial(s, i, actors, bubbles)
    case None => s
    case Some(v) => s + [VialNode(s[i].parent, s[i].form, v)]
  }

  /**
    `t` is `s` followed by module-tagged vials, each placed beside a hit point
    input of `s` in a form, and each the only vial of its form: two vials
    sharing a form in `t` were both already there in `s`.
   */
  predicate AppendedTo(s: Page, t: Page)
  {
    Extends(s, t) && VialsBesideInputs(s, t) && NewVialsAlone(s, t)
  }

  /** `t` starts with `s`. */
  predicate Extends(s: Page, t: Page)
  {
    |s| <= |t| && t[..|s|] == s
  }

  /** Every node of `t` past `s` is a module-tagged vial beside a hit point input of `s`, in its form. */
  predicate VialsBesideInputs(s: Page, t: Page)
  {
    forall j :: |s| <= j < |t| ==>
      && t[j].VialNode? && t[j].form.Some? && t[j].vial.moduleId == MODULE_NAME
      && exists i :: 0 <= i < |s| && s[i].HpInput? && s[i].parent == t[j].parent && s[i].form == t[j].form
  }

  /** Two vials of `t` sharing a form both come from `s`. */
  predicate NewVialsAlone(s: Page, t: Page)
  {
    forall i, j :: 0 <= i < |t| && 0 <= j < |t| && i != j
      && t[i].VialNode? && t[j].VialNode? && t[i].form.Some? && t[i].form == t[j].form
      ==> i < |s| && j < |s|
  }

  lemma EnhanceStepShape(s: Page, i: nat, actors: map<string, Actor>, bubbles: Option<bool>)
    requires i < |s|
    ensures AppendedTo(s, EnhanceStep(s, i, actors, bubbles))
  {
    var t := EnhanceStep(s, i, actors, bubbles);
    if t != s {
      assert t[..|s|] == s;
      assert !HasVialInForm(s, s[i].form.value);
    } else {
      assert t[..|s|] == s;
    }
  }

  lemma AppendedToTransitive(s: Page, t: Page, u: Page)
    requires AppendedTo(s, t) && AppendedTo(t, u)
    ensures AppendedTo(s, u)
  {
    ExtendsTransitive(s, t, u);
    BesideInputsTransitive(s, t, u);
    AloneTransitive(s, t, u);
  }

  lemma ExtendsTransitive(s: Page, t: Page, u: Page)
    requires Extends(s, t) && Extends(t, u)
    ensures Extends(s, u)
  {
    assert u[..|s|] == u[..|t|][..|s|];
  }

  lemma BesideInputsTransitive(s: Page, t: Page, u: Page)
    requires Extends(s, t) && Extends(t, u)
    requires VialsBesideInputs(s, t) && VialsBesideInputs(t, u)
    ensures VialsBesideInputs(s, u)
  {
    forall j | |s| <= j < |u|
      ensures exists i :: 0 <= i < |s| && s[i].HpInput? && s[i].parent == u[j].parent && s[i].form == u[j].form
    {
      if j < |t| {
        assert u[..|t|][j] == u[j];
      } else {
        var i :| 0 <= i < |t| && t[i].HpInput? && t[i].parent == u[j].parent && t[i].form == u[j].form;
        assert i < |s|;
        assert t[..|s|][i] == t[i];
      }
    }
  }

  lemma AloneTransitive(s: Page, t: Page, u: Page)
    requires Extends(s, t) && Extends(t, u)
    requires NewVialsAlone(s, t) && NewVialsAlone(t, u)
    ensures NewVialsAlone(s, u)
  {
    forall a, b | 0 <= a < |u| && 0 <= b < |u| && a != b
        && u[a].VialNode? && u[b].VialNode? && u[a].form.Some? && u[a].form == u[b].form
      ensures a < |s| && b < |s|
    {
      assert a < |t| && b < |t|;
      assert u[..|t|][a] == u[a] && u[..|t|][b] == u[b];
    }
  }

  /** The sheet loop over the nodes `i` to `n - 1` that were on the page when it began. */
  function EnhanceFrom(s: Page, i: nat, n: nat, actors: map<string, Actor>, bubbles: Option<bool>): (r: Page)
    requires n <= |s|
    decreases n - i
    ensures |r| >= |s|
  {
    if i >= n then s
    else EnhanceFrom(EnhanceStep(s, i, actors, bubbles), i + 1, n, actors, bubbles)
  }

  lemma {:induction false} EnhanceFromShape(s: Page, i: nat, n: nat, actors: map<string, Actor>, bubbles: Option<bool>)
    requires n <= |s|
    ensures AppendedTo(s, EnhanceFrom(s, i, n, actors, bubbles))
    decreases n - i
  {
    if i >= n {
      assert s[..|s|] == s;
    } else {
      var t := EnhanceStep(s, i, actors, bubbles);
      EnhanceStepShape(s, i, actors, bubbles);
      EnhanceFromShape(t, i + 1, n, actors, bubbles);
      AppendedToTransitive(s, t, EnhanceFrom(t, i + 1, n, actors, bubbles));
    }
  }

  /**
    `enhanceActorSheets`: nothing on an unsupported system; otherwise the
    sheet loop over the nodes present when it starts. It never puts a second
    vial into one form.
   */
  function EnhanceAll(s: Page, systemId: string, actors: map<string, Actor>, bubbles: Option<bool>): (r: Page)
    ensures AppendedTo(s, r)
    ensures !IsSystemSupported(systemId) ==> r == s
  {
    if !IsSystemSupported(systemId) then
      assert s[..|s|] == s;
      s
    else
      EnhanceFromShape(s, 0, |s|, actors, bubbles);
      EnhanceFrom(s, 0, |s|, actors, bubbles)
  }

  /** On the supported system the sheet pass is the sheet loop over the whole page. */
  lemma EnhanceAllLoops(s: Page, systemId: string, actors: map<string, Actor>, bubbles: Option<bool>)
    requires IsSystemSupported(systemId)
    ensures EnhanceAll(s, systemId, actors, bubbles) == EnhanceFrom(s, 0, |s|, actors, bubbles)
  {
  }

  /** At most one vial sits in each form. */
  predicate OneVialPerForm(s: Page)
  {
    forall i, j :: 0 <= i < |s| && 0 <= j < |s| && i != j && s[i].VialNode? && s[j].VialNode? && s[i].form.Some?
      ==> s[i].form != s[j].form
  }

  /** The sheet pass keeps "at most one vial per form". */
  lemma EnhanceAllKeepsOneVialPerForm(s: Page, systemId: string, actors: map<string, Actor>, bubbles: Option<bool>)
    requires OneVialPerForm(s)
    ensures OneVialPerForm(EnhanceAll(s, systemId, actors, bubbles))
  {
    var r := EnhanceAll(s, systemId, actors, bubbles);
    forall i, j | 0 <= i < |r| && 0 <= j < |r| && i != j && r[i].VialNode? && r[j].VialNode? && r[i].form.Some?
      ensures r[i].form != r[j].form
    {
    }
  }

  lemma SheetSettledStays(s: Page, t: Page, j: nat, actors: map<string, Actor>, bubbles: Option<bool>)
    requires AppendedTo(s, t) && j < |s|
    requires SheetVial(s, j, actors, bubbles).None?
    ensures SheetVial(t, j, actors, bubbles).None?
  {
    assert t[j] == s[j];
    if s[j].HpInput? && s[j].form.Some? && HasVialInForm(s, s[j].form.value) {
      var k :| 0 <= k < |s| && s[k].VialNode? && s[k].form == s[j].form;
      assert t[k] == s[k];
    }
  }

  /** No node outside `i` to `n - 1` is one the sheet pass would still give a vial. */
  predicate SheetsSettledOutside(s: Page, i: nat, n: nat, actors: map<string, Actor>, bubbles: Option<bool>)
  {
    forall j :: 0 <= j < |s| && !(i <= j < n) ==> SheetVial(s, j, actors, bubbles).None?
  }

  /** No hit point input of `s` would get a vial. */
  predicate SheetsSettled(s: Page, actors: map<string, Actor>, bubbles: Option<bool>)
  {
    forall j :: 0 <= j < |s| ==> SheetVial(s, j, actors, bubbles).None?
  }

  /**
    One turn of the sheet loop settles node `i`, keeps settled what was, and
    appends only settled nodes.
   */
  lemma EnhanceStepSettles(s: Page, i: nat, n: nat, actors: map<string, Actor>, bubbles: Option<bool>)
    requires i < n <= |s|
    requires SheetsSettledOutside(s, i, n, actors, bubbles)
    ensures SheetsSettledOutside(EnhanceStep(s, i, actors, bubbles), i + 1, n, actors, bubbles)
  {
    var t := EnhanceStep(s, i, actors, bubbles);
    EnhanceStepShape(s, i, actors, bubbles);
    forall j | 0 <= j < |t| && !(i + 1 <= j < n)
      ensures SheetVial(t, j, actors, bubbles).None?
    {
      if j >= |s| {
        assert t[j].VialNode?;
      } else if j == i {
        if t != s {
          assert t[|s|].VialNode? && t[|s|].form == t[i].form;
        }
      } else {
        SheetSettledStays(s, t, j, actors, bubbles);
      }
    }
  }

  /** One turn of the sheet loop, as an equation. */
  lemma EnhanceFromUnfold(s: Page, i: nat, n: nat, actors: map<string, Actor>, bubbles: Option<bool>)
    requires i < n <= |s|
    ensures EnhanceFrom(s, i, n, actors, bubbles) == EnhanceFrom(EnhanceStep(s, i, actors, bubbles), i + 1, n, actors, bubbles)
  {
  }

  /** The sheet loop past its last node leaves the page alone. */
  lemma EnhanceFromDone(s: Page, i: nat, n: nat, actors: map<string, Actor>, bubbles: Option<bool>)
    requires n <= i && n <= |s|
    ensures EnhanceFrom(s, i, n, actors, bubbles) == s
  {
  }

  /** A finished sheet loop leaves a page on which every input is settled. */
  lemma EnhanceFromDoneSettles(s: Page, i: nat, n: nat, actors: map<string, Actor>, bubbles: Option<bool>)
    requires n <= i && n <= |s| && SheetsSettledOutside(s, i, n, actors, bubbles)
    ensures SheetsSettled(EnhanceFrom(s, i, n, actors, bubbles), actors, bubbles)
  {
    EnhanceFromDone(s, i, n, actors, bubbles);
  }

  /** One turn of the sheet loop passes settledness back and settles node `i`. */
  lemma EnhanceFromStepSettles(s: Page, i: nat, n: nat, actors: map<string, Actor>, bubbles: Option<bool>)
    requires i < n <= |s| && SheetsSettledOutside(s, i, n, actors, bubbles)
    ensures var t := EnhanceStep(s, i, actors, bubbles);
      && (SheetsSettled(EnhanceFrom(t, i + 1, n, actors, bubbles), actors, bubbles) ==>
          SheetsSettled(EnhanceFrom(s, i, n, actors, bubbles), actors, bubbles))
      && n <= |t| && SheetsSettledOutside(t, i + 1, n, actors, bubbles)
  {
    EnhanceFromUnfold(s, i, n, actors, bubbles);
    EnhanceStepSettles(s, i, n, actors, bubbles);
  }

  lemma {:induction false} EnhanceFromSettles(s: Page, i: nat, n: nat, actors: map<string, Actor>, bubbles: Option<bool>)
    requires n <= |s|
    requires SheetsSettledOutside(s, i, n, actors, bubbles)
    ensures SheetsSettled(EnhanceFrom(s, i, n, actors, bubbles), actors, bubbles)
    decreases n - i
  {
    if i >= n {
      EnhanceFromDoneSettles(s, i, n, actors, bubbles);
    } else {
      EnhanceFromStepSettles(s, i, n, actors, bubbles);
      EnhanceFromSettles(EnhanceStep(s, i, actors, bubbles), i + 1, n, actors, bubbles);
    }
  }

  lemma {:induction false} EnhanceFromFixed(s: Page, i: nat, n: nat, actors: map<string, Actor>, bubbles: Option<bool>)
    requires n <= |s|
    requires SheetsSettled(s, actors, bubbles)
    ensures EnhanceFrom(s, i, n, actors, bubbles) == s
    decreases n - i
  {
    if i < n {
      assert EnhanceStep(s, i, actors, bubbles) == s;
      EnhanceFromFixed(s, i + 1, n, actors, bubbles);
    }
  }

  /** After the sheet pass no input is left that the pass would still give a vial. */
  lemma EnhanceAllSettles(s: Page, systemId: string, actors: map<string, Actor>, bubbles: Option<bool>)
    requires IsSystemSupported(systemId)
    ensures var r := EnhanceAll(s, systemId, actors, bubbles);
      forall j :: 0 <= j < |r| ==> SheetVial(r, j, actors, bubbles).None?
  {
    assert EnhanceAll(s, systemId, actors, bubbles) == EnhanceFrom(s, 0, |s|, actors, bubbles);
    EnhanceFromSettles(s, 0, |s|, actors, bubbles);
    assert SheetsSettled(EnhanceFrom(s, 0, |s|, actors, bubbles), actors, bubbles);
  }

  /** Running the sheet pass a second time on the page it left changes nothing. */
  lemma EnhanceAllIdempotent(s: Page, systemId: string, actors: map<string, Actor>, bubbles: Option<bool>)
    ensures var r := EnhanceAll(s, systemId, actors, bubbles);
      EnhanceAll(r, systemId, actors, bubbles) == r
  {
    if IsSystemSupported(systemId) {
      var r := EnhanceAll(s, systemId, actors, bubbles);
      EnhanceAllSettles(s, systemId, actors, bubbles);
      EnhanceFromFixed(r, 0, |r|, actors, bubbles);
    }
  }

  // ---------------------------------------------------------------------
  // Bubbles: updateBubbleVisibility
  // ---------------------------------------------------------------------

  /** One node after the bubble reset. */
  function RefreshNode(n: Node<VialState>, enabled: bool): (r: Node<VialState>)
    ensures r.VialNode? <==> n.VialNode?
    ensures r.parent == n.parent && r.form == n.form
    ensures n.VialNode? ==> r.vial.(bubbles := n.vial.bubbles) == n.vial
    ensures n.VialNode? && n.vial.hasLiquid ==> r.vial.bubbles == (if enabled then BUBBLE_COUNT else 0)
    ensures n.VialNode? && !n.vial.hasLiquid ==> r == n
    ensures !n.VialNode? ==> r == n
  {
    match n
    case VialNode(p, f, v) => VialNode(p, f, Rebubbled(v, enabled))
    case _ => n
  }

  /**
    `updateBubbleVisibility` with the setting read as `enabled`: every vial
    with a liquid ends with five bubbles when enabled and none otherwise;
    nothing else on the page changes.
   */
  function RefreshAll(s: Page, enabled: bool): (r: Page)
    ensures |r| == |s|
    ensures forall j :: 0 <= j < |s| && s[j].VialNode? && s[j].vial.hasLiquid ==>
      r[j].VialNode? && r[j].vial.bubbles == (if enabled then BUBBLE_COUNT else 0)
    ensures forall j :: 0 <= j < |s| && s[j].VialNode? ==>
      r[j].VialNode? && r[j].vial.(bubbles := s[j].vial.bubbles) == s[j].vial
      && r[j].parent == s[j].parent && r[j].form == s[j].form
    ensures forall j :: 0 <= j < |s| && s[j].VialNode? && !s[j].vial.hasLiquid ==> r[j] == s[j]
    ensures forall j :: 0 <= j < |s| && !s[j].VialNode? ==> r[j] == s[j]
  {
    seq(|s|, j requires 0 <= j < |s| => RefreshNode(s[j], enabled))
  }

  /** Resetting bubbles twice with the same setting is the same as once. */
  lemma RefreshAllIdempotent(s: Page, enabled: bool)
    ensures RefreshAll(RefreshAll(s, enabled), enabled) == RefreshAll(s, enabled)
  {
  }
}
