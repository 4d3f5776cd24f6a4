/** The `ConflictAlert` component (src/components/conflictAlert.js): what the
    modal shows for a list of conflicts. The markup and its styling are not
    modelled; a rendered alert is a `View` holding the texts and the choices
    the markup depends on (heading, one card per conflict with its badge
    tier, whether previews are shown, the toggle's label). */
module ConflictAlert {
  import opened Common
  import opened EmbeddingService

  /** The badge colour of a card (lines 45-49). */
  datatype Tier = Red | Yellow | Orange

  /** `similarity >= 95 ? red : similarity >= 90 ? yellow : orange`. */
  function BadgeTier(similarity: int): (t: Tier)
    ensures t == Red <==> similarity >= 95
    ensures t == Yellow <==> 90 <= similarity < 95
    ensures t == Orange <==> similarity < 90
  {
    if similarity >= 95 then Red else if similarity >= 90 then Yellow else Orange
  }

  /** The noun of the heading: `document` plus `'s'` when `count > 1`. */
  function DocumentNoun(count: nat): (w: string)
    ensures w == "documents" <==> count > 1
    ensures w == "document" <==> count <= 1
  {
    "document" + (if count > 1 then "s" else "")
  }

  /** The heading line (line 24). */
  function Heading(count: nat): string {
    "Found " + NatToDecimal(count) + " similar " + DocumentNoun(count) + " in your knowledge base"
  }

  /** One card (lines 42-62), keyed by the conflict's id. */
  datatype Card = Card(key: string, name: string, badge: string, tier: Tier, preview: Option<string>)

  /** The rendered modal. `fileName` is empty when the prop is undefined. */
  datatype View = View(heading: string, fileName: string, cards: seq<Card>, toggleLabel: string)

  function CardOf(c: Conflict, showDetails: bool): Card {
    Card(c.id, c.name, IntToDecimal(c.similarity) + "% similar", BadgeTier(c.similarity),
         if showDetails then Some(c.contentPreview) else None)
  }

  function ToggleLabel(showDetails: bool): string {
    if showDetails then "Hide Details" else "Show Content Previews"
  }

  /** What the component renders for its props and its `showDetails` state:
      nothing for a null, undefined or empty list (line 6); otherwise one
      card per conflict, in order, previews only while `showDetails`. */
  function Render(conflicts: Option<seq<Conflict>>, fileName: Option<string>, showDetails: bool): (v: Option<View>)
    ensures v.None? <==> conflicts.None? || conflicts.value == []
    ensures v.Some? ==>
      && v.value.heading == Heading(|conflicts.value|)
      && |v.value.cards| == |conflicts.value|
      && v.value.toggleLabel == ToggleLabel(showDetails)
      && forall i :: 0 <= i < |conflicts.value| ==>
           && v.value.cards[i].key == conflicts.value[i].id
           && v.value.cards[i].name == conflicts.value[i].name
           && v.value.cards[i].tier == BadgeTier(conflicts.value[i].similarity)
           && (v.value.cards[i].preview.Some? <==> showDetails)
           && (showDetails ==> v.value.cards[i].preview == Some(conflicts.value[i].contentPreview))
  {
    if conflicts.None? || conflicts.value == [] then None
    else
      var cs := conflicts.value;
      Some(View(Heading(|cs|), if fileName.Some? then fileName.value else "",
                seq(|cs|, i requires 0 <= i < |cs| => CardOf(cs[i], showDetails)),
                ToggleLabel(showDetails)))
  }

  /** The plural is used exactly when there is more than one conflict. */
  lemma HeadingPlural(count: nat)
    ensures EndsWith(Heading(count)[..|Heading(count)| - |" in your knowledge base"|], "documents") <==> count > 1
  {
    var tail := " in your knowledge base";
    var h := Heading(count);
    var front := "Found " + NatToDecimal(count) + " similar " + DocumentNoun(count);
    assert h == front + tail;
    assert h[..|h| - |tail|] == front;
    if count > 1 {
      assert front[|front| - 9..] == "documents";
    } else {
      assert front[|front| - 8..] == "document";
      assert front[|front| - 9] == ' ';
    }
  }

  /** The modal's own state: whether content previews are shown. A fresh
      instance is mounted each time the upload component shows the alert. */
  class AlertState {
    var showDetails: bool

    constructor ()
      ensures !showDetails
    {
      showDetails := false;
    }

    /** The "Show Content Previews" / "Hide Details" button (line 68). */
    method ToggleDetails()
      modifies this
      ensures showDetails == !old(showDetails)
    {
      showDetails := !showDetails;
    }
  }
}
