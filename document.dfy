/**
  The live page: a sequence of nodes whose vials are `Vial` objects, and the
  four operations of `BloodVialHealthBar` that walk it and change it in place:
  `replaceHealthBars`, `enhanceActorSheets`, `updateBubbleVisibility` and
  `cleanup`. Each loop is proved against the snapshot function in `Reconcile`
  (or, for `cleanup`, against `Untagged`).
 */
module Dom {
  import opened JsValues
  import opened Health
  import opened Vials
  import opened Reconcile

  /** A node of the live page. */
  type Slot = Node<Vial>

  /** The vial objects on a page. */
  function Objs(s: seq<Slot>): set<Vial>
  {
    set j | 0 <= j < |s| && s[j].VialNode? :: s[j].vial
  }

  /** A node as a snapshot sees it: its vial replaced by the vial's state. */
  function ViewOf(n: Slot): Node<VialState>
    reads if n.VialNode? then {n.vial} else {}
  {
    match n
    case TokenBar(p, f, t) => TokenBar(p, f, t)
    case HpInput(p, f, a, c) => HpInput(p, f, a, c)
    case VialNode(p, f, v) => VialNode(p, f, v.State())
    case Other(p, f, t) => Other(p, f, t)
  }

  /** The snapshot of a page. */
  function Views(s: seq<Slot>): (r: Page)
    reads Objs(s)
    ensures |r| == |s|
    ensures forall j :: 0 <= j < |s| ==> r[j] == ViewOf(s[j])
  {
    seq(|s|, j requires 0 <= j < |s| reads Objs(s) => ViewOf(s[j]))
  }

  /** The guards read the same on the page and on its snapshot. */
  lemma ViewsKeepGuards(s: seq<Slot>, parent: nat, form: nat)
    ensures HasVialUnder(Views(s), parent) <==> HasVialUnder(s, parent)
    ensures HasVialInForm(Views(s), form) <==> HasVialInForm(s, form)
  {
    var r := Views(s);
    if HasVialUnder(r, parent) {
      var j :| 0 <= j < |r| && r[j].VialNode? && r[j].parent == parent;
      assert s[j].VialNode? && s[j].parent == parent;
    }
    if HasVialUnder(s, parent) {
      var j :| 0 <= j < |s| && s[j].VialNode? && s[j].parent == parent;
      assert r[j].VialNode? && r[j].parent == parent;
    }
    if HasVialInForm(r, form) {
      var j :| 0 <= j < |r| && r[j].VialNode? && r[j].form == Some(form);
      assert s[j].VialNode? && s[j].form == Some(form);
    }
    if HasVialInForm(s, form) {
      var j :| 0 <= j < |s| && s[j].VialNode? && s[j].form == Some(form);
      assert r[j].VialNode? && r[j].form == Some(form);
    }
  }

  /** `[data-module-id="blood-vial-health"]` matches the node. */
  predicate Tagged(n: Slot)
  {
    match n
    case VialNode(_, _, v) => v.moduleId == MODULE_NAME
    case Other(_, _, tag) => tag == Some(MODULE_NAME)
    case _ => false
  }

  /** The page with every module-tagged node removed, in order. */
  function Untagged(s: seq<Slot>): seq<Slot>
  {
    if s == [] then []
    else Untagged(s[..|s| - 1]) + (if Tagged(s[|s| - 1]) then [] else [s[|s| - 1]])
  }

  /**
    Removing the tagged nodes drops every copy of every tagged node and keeps
    every copy of every other node.
   */
  lemma {:induction false} UntaggedCounts(s: seq<Slot>)
    ensures forall x :: multiset(Untagged(s))[x] == if Tagged(x) then 0 else multiset(s)[x]
  {
    if s != [] {
      var init, last := s[..|s| - 1], s[|s| - 1];
      assert s == init + [last];
      UntaggedCounts(init);
    }
  }

  /** What is left after removing the tagged nodes: exactly the untagged nodes of the page. */
  lemma UntaggedMembers(s: seq<Slot>)
    ensures forall x :: x in Untagged(s) <==> x in s && !Tagged(x)
  {
    UntaggedCounts(s);
    forall x
      ensures x in Untagged(s) <==> x in s && !Tagged(x)
    {
      assert x in Untagged(s) <==> x in multiset(Untagged(s));
      assert x in s <==> x in multiset(s);
    }
  }

  /** Removing the tagged nodes of a concatenation works part by part. */
  lemma {:induction false} UntaggedAppend(a: seq<Slot>, b: seq<Slot>)
    ensures Untagged(a + b) == Untagged(a) + Untagged(b)
    decreases |b|
  {
    if b != [] {
      var init, last := b[..|b| - 1], b[|b| - 1];
      assert (a + b)[..|a + b| - 1] == a + init;
      UntaggedAppend(a, init);
    } else {
      assert a + b == a;
    }
  }

  /** Taking one tagged node out first does not change what removing all of them leaves. */
  lemma UntaggedSkips(s: seq<Slot>, i: nat)
    requires i < |s| && Tagged(s[i])
    ensures Untagged(s[..i] + s[i + 1..]) == Untagged(s)
  {
    var a, x, b := s[..i], s[i], s[i + 1..];
    assert s == (a + [x]) + b;
    assert s[..i] + s[i + 1..] == a + b;
    assert Untagged(a + [x]) == Untagged(a) by {
      assert (a + [x])[..|a + [x]| - 1] == a;
    }
    UntaggedAppend(a + [x], b);
    UntaggedAppend(a, b);
  }

  /** A page without tagged nodes is left as it is. */
  lemma {:induction false} UntaggedOfClean(s: seq<Slot>)
    requires forall j :: 0 <= j < |s| ==> !Tagged(s[j])
    ensures Untagged(s) == s
  {
    if s != [] {
      UntaggedOfClean(s[..|s| - 1]);
    }
  }

  /** The page. */
  class Document {
    var slots: seq<Slot>

    constructor (slots: seq<Slot>)
      ensures this.slots == slots
    {
      this.slots := slots;
    }

    /** One turn of `replaceHealthBars`' loop, on node `i`. */
    method ReplaceAt(i: nat, tokens: map<string, TokenDoc>, bubbles: Option<bool>)
      requires i < |slots|
      modifies this
      ensures Views(slots) == ReplaceStep(old(Views(slots)), i, tokens, bubbles)
      ensures fresh(Objs(slots) - old(Objs(slots)))
    {
      ghost var s := Views(slots);
      var node := slots[i];
      assert s[i] == ViewOf(node);
      if !node.TokenBar? || node.tokenId.None? || node.tokenId.value !in tokens {
        return;
      }
      var doc := tokens[node.tokenId.value];
      if doc.actor.None? {
        return;
      }
      var hp := GetActorHP(doc.actor);
      if hp.None? {
        return;
      }
      ViewsKeepGuards(slots, node.parent, 0);
      if HasVialUnder(slots, node.parent) {
        return;
      }
      var vial := CreateBloodVial(Num(hp.value.value), Num(hp.value.max), doc.id, bubbles);
      assert BarVial(node.tokenId, tokens, bubbles).Some?;
      if vial == null {
        return;
      }
      assert Views(slots) == s;
      slots := slots[i := VialNode(node.parent, node.form, vial)];
      assert Views(slots) == s[i := VialNode(node.parent, node.form, vial.State())];
    }

    /**
      `replaceHealthBars`: outside the supported system nothing happens;
      otherwise every node is visited once, in order, and a token bar whose
      token has an actor with valid hit points, and whose parent holds no
      vial yet, is replaced in place by a fresh vial.
     */
    method ReplaceHealthBars(systemId: string, tokens: map<string, TokenDoc>, bubbles: Option<bool>)
      modifies this
      ensures Views(slots) == ReplaceAll(old(Views(slots)), systemId, tokens, bubbles)
      ensures fresh(Objs(slots) - old(Objs(slots)))
    {
      if !IsSystemSupported(systemId) {
        return;
      }
      ReplaceAllLoops(Views(slots), systemId, tokens, bubbles);
      ReplaceEach(tokens, bubbles);
    }

    /** The loop of `replaceHealthBars`: every node, in order, once. */
    method ReplaceEach(tokens: map<string, TokenDoc>, bubbles: Option<bool>)
      modifies this
      ensures Views(slots) == ReplaceFrom(old(Views(slots)), 0, tokens, bubbles)
      ensures fresh(Objs(slots) - old(Objs(slots)))
    {
      ghost var start, known := Views(slots), Objs(slots);
      var i: nat := 0;
      while i < |slots|
        invariant i <= |slots|
        invariant ReplaceFrom(Views(slots), i, tokens, bubbles) == ReplaceFrom(start, 0, tokens, bubbles)
        invariant fresh(Objs(slots) - known)
      {
        ghost var before := Views(slots);
        ReplaceAt(i, tokens, bubbles);
        ReplaceFromUnfold(before, i, tokens, bubbles);
        i := i + 1;
      }
      ReplaceFromDone(Views(slots), i, tokens, bubbles);
    }

    /** One turn of `enhanceActorSheets`' loop, on hit point input `i`. */
    method EnhanceAt(i: nat, actors: map<string, Actor>, bubbles: Option<bool>)
      requires i < |slots|
      modifies this
      ensures Views(slots) == EnhanceStep(old(Views(slots)), i, actors, bubbles)
      ensures fresh(Objs(slots) - old(Objs(slots)))
    {
      ghost var s := Views(slots);
      var node := slots[i];
      assert s[i] == ViewOf(node);
      if !node.HpInput? || node.form.None? {
        return;
      }
      ViewsKeepGuards(slots, 0, node.form.value);
      if HasVialInForm(slots, node.form.value) {
        return;
      }
      var actorId := SheetActorId(node.formActorId, node.closestActorId);
      if actorId == "" || actorId !in actors {
        return;
      }
      var actor := actors[actorId];
      var hp := GetActorHP(Some(actor));
      if hp.None? {
        return;
      }
      var vial := CreateBloodVial(Num(hp.value.value), Num(hp.value.max), actor.id, bubbles);
      assert InputVial(node.formActorId, node.closestActorId, actors, bubbles).Some?;
      if vial == null {
        return;
      }
      assert Views(slots) == s;
      slots := slots + [VialNode(node.parent, node.form, vial)];
      assert Views(slots) == s + [VialNode(node.parent, node.form, vial.State())];
    }

    /**
      `enhanceActorSheets`: outside the supported system nothing happens;
      otherwise every node present at the start is visited once, in order, and
      a hit point input inside a form that holds no vial yet gets a fresh vial
      appended, built from the actor its sheet names.
     */
    method EnhanceActorSheets(systemId: string, actors: map<string, Actor>, bubbles: Option<bool>)
      modifies this
      ensures Views(slots) == EnhanceAll(old(Views(slots)), systemId, actors, bubbles)
      ensures fresh(Objs(slots) - old(Objs(slots)))
    {
      if !IsSystemSupported(systemId) {
        return;
      }
      EnhanceAllLoops(Views(slots), systemId, actors, bubbles);
      EnhanceEach(|slots|, actors, bubbles);
    }

    /** The loop of `enhanceActorSheets` over the `n` nodes on the page when it begins, in order. */
    method EnhanceEach(n: nat, actors: map<string, Actor>, bubbles: Option<bool>)
      requires n <= |slots|
      modifies this
      ensures Views(slots) == EnhanceFrom(old(Views(slots)), 0, n, actors, bubbles)
      ensures fresh(Objs(slots) - old(Objs(slots)))
    {
      ghost var start, known := Views(slots), Objs(slots);
      var i: nat := 0;
      while i < n
        invariant i <= n <= |slots|
        invariant EnhanceFrom(Views(slots), i, n, actors, bubbles) == EnhanceFrom(start, 0, n, actors, bubbles)
        invariant fresh(Objs(slots) - known)
      {
        ghost var before := Views(slots);
        EnhanceAt(i, actors, bubbles);
        EnhanceFromUnfold(before, i, n, actors, bubbles);
        i := i + 1;
      }
      EnhanceFromDone(Views(slots), i, n, actors, bubbles);
    }

    /**
      `updateBubbleVisibility`, given what reading the setting gave (`None`
      when reading it failed, which leaves the page as it was): every vial on
      the page has its bubbles reset, one container at a time.
     */
    method UpdateBubbleVisibility(setting: Option<bool>)
      modifies Objs(slots)
      ensures setting.None? ==> Views(slots) == old(Views(slots))
      ensures setting.Some? ==> Views(slots) == RefreshAll(old(Views(slots)), setting.value)
    {
      if setting.None? {
        return;
      }
      var enabled := setting.value;
      var i := 0;
      while i < |slots|
        invariant 0 <= i <= |slots|
        invariant forall v | v in Objs(slots) ::
          v.State() == old(v.State()) || v.State() == Rebubbled(old(v.State()), enabled)
        invariant forall j | 0 <= j < i && slots[j].VialNode? ::
          slots[j].vial.State() == Rebubbled(old(slots[j].vial.State()), enabled)
      {
        if slots[i].VialNode? {
          slots[i].vial.RefreshBubbles(enabled);
        }
        i := i + 1;
      }
      forall j | 0 <= j < |slots|
        ensures Views(slots)[j] == RefreshAll(old(Views(slots)), enabled)[j]
      {
        assert old(Views(slots))[j] == old(ViewOf(slots[j]));
      }
    }

    /**
      `cleanup`: every node carrying the module's tag is removed, one at a
      time; the other nodes stay, in order.
     */
    method Cleanup()
      modifies this
      ensures slots == Untagged(old(slots))
      ensures forall j :: 0 <= j < |slots| ==> !Tagged(slots[j])
      ensures forall x :: x in old(slots) && !Tagged(x) ==> x in slots
    {
      var i := 0;
      while i < |slots|
        invariant 0 <= i <= |slots|
        invariant Untagged(slots) == Untagged(old(slots))
        invariant forall j :: 0 <= j < i ==> !Tagged(slots[j])
        decreases |slots| - i
      {
        if Tagged(slots[i]) {
          UntaggedSkips(slots, i);
          slots := slots[..i] + slots[i + 1..];
        } else {
          i := i + 1;
        }
      }
      UntaggedOfClean(slots);
      UntaggedMembers(old(slots));
    }
  }
}
