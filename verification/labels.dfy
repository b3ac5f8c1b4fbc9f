/**
 * Button lookup: `deepFindClickable` and the label tests its callers pass.
 * The page traversal is replaced by its observable result, the trimmed
 * labels of the visible button-like elements in `deepNodes` order (an
 * element's light children and their subtrees before its shadow root);
 * the lookup returns the first non-empty label its test accepts.
 */
module Labels {
  import opened Basics
  import opened Text

  /** The label tests of `clickCheck`, `clickRedeemForPlatform`, `clickConfirmIfPresent` and `closeDialogsToasts`. */
  datatype ButtonTest = CheckTest | RedeemForTest(platform: string) | ConfirmTest | CloseTest

  const CheckWords: seq<string> := ["check", "verify", "submit", "continue", "redeem"]
  const ConfirmWords: seq<string> := ["confirm", "redeem", "claim", "accept", "continue"]
  const CloseLabels: seq<string> := ["close", "ok", "done", "continue", "got it", "dismiss", "x"]

  /** Some word of `words` occurs in `t`. */
  predicate ContainsAny(t: string, words: seq<string>) {
    exists i | 0 <= i < |words| :: Contains(t, words[i])
  }

  /**
   * `w` occurs at `i` as a whole word: `(^|\b)` before it and `(\b|$)`
   * after it. Every word of the check test begins and ends with a word
   * character, so both reduce to a non-word neighbour or the end of the text.
   */
  predicate WholeWordAt(t: string, i: nat, w: string) {
    && StartsAt(t, i, w)
    && (i == 0 || !IsWordChar(t[i - 1]))
    && (i + |w| == |t| || !IsWordChar(t[i + |w|]))
  }

  /** `/(^|\b)(check|verify|submit|continue|redeem)(\b|$)/i` on the lower-cased label `t`. */
  predicate HasCheckWord(t: string) {
    exists i, w | 0 <= i <= |t| && w in CheckWords :: WholeWordAt(t, i, w)
  }

  /** The label test of each lookup, on the label as shown. */
  predicate Accepts(test: ButtonTest, caption: string) {
    var t := ToLower(caption);
    match test
    case CheckTest => HasCheckWord(t)
    case RedeemForTest(p) => Contains(t, "redeem for " + ToLower(p))
    case ConfirmTest => ContainsAny(t, ConfirmWords)
    case CloseTest => ContainsAny(t, CloseLabels)
  }

  /** A label whose element would be clicked: it is non-empty and passes the test. */
  predicate Clickable(test: ButtonTest, caption: string) {
    caption != "" && Accepts(test, caption)
  }

  /** `deepFindClickable(test)`: the position of the first clickable label, or `None`. */
  function FindClickable(labels: seq<string>, test: ButtonTest): (r: Option<nat>)
    ensures r.Some? ==> r.value < |labels| && Clickable(test, labels[r.value])
    ensures r.Some? ==> forall j | 0 <= j < r.value :: !Clickable(test, labels[j])
    ensures r.None? <==> forall j | 0 <= j < |labels| :: !Clickable(test, labels[j])
    decreases |labels|
  {
    if |labels| == 0 then None
    else if Clickable(test, labels[0]) then Some(0)
    else
      var rest := FindClickable(labels[1..], test);
      assert forall j | 0 < j < |labels| :: labels[j] == labels[1..][j - 1];
      if rest.Some? then Some(rest.value + 1) else None
  }

  /** The close test accepts any label containing the letter x, a platform button such as "Redeem for Xbox Live" included. */
  lemma CloseTestAcceptsAnyX(caption: string)
    requires Contains(ToLower(caption), "x")
    ensures Accepts(CloseTest, caption)
  {
    assert CloseLabels[6] == "x";
  }

  lemma XboxButtonPassesCloseTest()
    ensures Accepts(CloseTest, "Redeem for Xbox Live")
  {
    var t := ToLower("Redeem for Xbox Live");
    assert t[11] == 'x';
    assert StartsAt(t, 11, "x");
    CloseTestAcceptsAnyX("Redeem for Xbox Live");
  }

  /**
   * The captions of the helper's own panel buttons that are visible while
   * the panel is expanded and its advanced options are closed, in the order
   * the page traversal meets them: minimise, close (U+00D7, not the letter
   * x), Start Redeeming, Stop, Resume. The panel is appended to the end of
   * the body, so its buttons follow every site element present before it
   * and precede any dialog the site appends later.
   */
  const PanelLabels: seq<string> := ["_", "\U{00D7}", StartCaption, "Stop", "Resume"]
  const StartCaption: string := "Start Redeeming"

  /**
   * As written, the confirmation lookup accepts the panel's own Start
   * button: when no site button passes the test, it is the one found.
   */
  lemma ConfirmFindsStartButton(site: seq<string>)
    requires forall j | 0 <= j < |site| :: !Clickable(ConfirmTest, site[j])
    ensures FindClickable(site + PanelLabels, ConfirmTest) == Some(|site| + 2)
  {
    NothingToConfirmBeforeStart(site);
    FirstClickable(site + PanelLabels, ConfirmTest, |site| + 2);
  }

  /** The panel's minimise and close captions fail the confirmation test, and its Start caption passes it. */
  lemma PanelConfirmCaptions()
    ensures !Clickable(ConfirmTest, PanelLabels[0]) && !Clickable(ConfirmTest, PanelLabels[1])
    ensures Clickable(ConfirmTest, PanelLabels[2])
  {
    ShortLabelNotConfirm(PanelLabels[0]);
    ShortLabelNotConfirm(PanelLabels[1]);
    StartAcceptedByConfirm();
  }

  lemma NothingToConfirmBeforeStart(site: seq<string>)
    requires forall j | 0 <= j < |site| :: !Clickable(ConfirmTest, site[j])
    ensures forall j | 0 <= j < |site| + 2 :: !Clickable(ConfirmTest, (site + PanelLabels)[j])
    ensures Clickable(ConfirmTest, (site + PanelLabels)[|site| + 2])
  {
    var labels := site + PanelLabels;
    PanelConfirmCaptions();
    forall j | 0 <= j < |site| + 2
      ensures !Clickable(ConfirmTest, labels[j])
    {
      if j < |site| {
        assert labels[j] == site[j];
      } else {
        assert labels[j] == PanelLabels[j - |site|];
      }
    }
    assert labels[|site| + 2] == PanelLabels[2];
  }

  /** The lookup finds the first clickable label. */
  lemma FirstClickable(labels: seq<string>, test: ButtonTest, k: nat)
    requires k < |labels| && Clickable(test, labels[k])
    requires forall j | 0 <= j < k :: !Clickable(test, labels[j])
    ensures FindClickable(labels, test) == Some(k)
  {
    var r := FindClickable(labels, test);
    assert r.Some?;
    assert !(k < r.value);
    assert !(r.value < k);
  }

  /** Every confirmation word has at least five letters, so a shorter label never passes. */
  lemma ShortLabelNotConfirm(caption: string)
    requires |caption| < 5
    ensures !Accepts(ConfirmTest, caption)
  {
    forall i | 0 <= i < |ConfirmWords|
      ensures !Contains(ToLower(caption), ConfirmWords[i])
    {
      assert |ConfirmWords[i]| >= 5;
    }
  }

  lemma StartAcceptedByConfirm()
    ensures Clickable(ConfirmTest, StartCaption)
  {
    var t := ToLower(StartCaption);
    assert t[6..12] == "redeem";
    assert StartsAt(t, 6, ConfirmWords[1]);
  }

  /** A visible button as a lookup sees it: its caption, and whether it lies inside the helper's panel. */
  datatype Button = Button(caption: string, inPanel: bool)

  function Captions(buttons: seq<Button>): (r: seq<string>)
    ensures |r| == |buttons| && forall j | 0 <= j < |buttons| :: r[j] == buttons[j].caption
  {
    seq(|buttons|, j requires 0 <= j < |buttons| => buttons[j].caption)
  }

  /** The button at `j` is a site button that passes the test. */
  predicate SiteClickable(buttons: seq<Button>, test: ButtonTest, j: nat)
    requires j < |buttons|
  {
    !buttons[j].inPanel && Clickable(test, buttons[j].caption)
  }

  /** The captions with those of the panel's buttons blanked out; a blank caption is never clicked. */
  function SiteCaptions(buttons: seq<Button>): (r: seq<string>)
    ensures |r| == |buttons|
    ensures forall j | 0 <= j < |buttons| :: r[j] == if buttons[j].inPanel then "" else buttons[j].caption
  {
    seq(|buttons|, j requires 0 <= j < |buttons| => if buttons[j].inPanel then "" else buttons[j].caption)
  }

  /**
   * The lookup as evidently intended: the first clickable button outside
   * the helper's own panel, so that the script never clicks its own
   * controls.
   */
  function FindSiteClickable(buttons: seq<Button>, test: ButtonTest): (r: Option<nat>)
    ensures r.Some? ==> r.value < |buttons| && SiteClickable(buttons, test, r.value)
    ensures r.Some? ==> forall j | 0 <= j < r.value :: !SiteClickable(buttons, test, j)
    ensures r.None? <==> forall j | 0 <= j < |buttons| :: !SiteClickable(buttons, test, j)
  {
    var captions := SiteCaptions(buttons);
    assert forall j | 0 <= j < |buttons| :: SiteClickable(buttons, test, j) == Clickable(test, captions[j]);
    FindClickable(captions, test)
  }

  /** On a page without the panel's buttons, the intended lookup finds what the lookup as written finds. */
  lemma SiteLookupAgreesWithoutPanel(buttons: seq<Button>, test: ButtonTest)
    requires forall j | 0 <= j < |buttons| :: !buttons[j].inPanel
    ensures FindSiteClickable(buttons, test) == FindClickable(Captions(buttons), test)
  {
    assert SiteCaptions(buttons) == Captions(buttons);
  }

  /** The intended confirmation lookup never clicks the panel: with no site button to confirm, it finds nothing. */
  lemma SiteConfirmSkipsPanel(site: seq<string>)
    requires forall j | 0 <= j < |site| :: !Clickable(ConfirmTest, site[j])
    ensures FindSiteClickable(SiteButtons(site) + PanelButtons(), ConfirmTest).None?
  {
    var buttons := SiteButtons(site) + PanelButtons();
    assert forall j | 0 <= j < |buttons| :: !SiteClickable(buttons, ConfirmTest, j) by {
      forall j | 0 <= j < |buttons|
        ensures !SiteClickable(buttons, ConfirmTest, j)
      {
        if j < |site| {
          assert buttons[j] == Button(site[j], false);
        } else {
          assert buttons[j].inPanel;
        }
      }
    }
  }

  function SiteButtons(captions: seq<string>): (r: seq<Button>)
    ensures |r| == |captions| && forall j | 0 <= j < |captions| :: r[j] == Button(captions[j], false)
  {
    seq(|captions|, j requires 0 <= j < |captions| => Button(captions[j], false))
  }

  function PanelButtons(): (r: seq<Button>)
    ensures Captions(r) == PanelLabels && forall j | 0 <= j < |r| :: r[j].inPanel
  {
    seq(|PanelLabels|, j requires 0 <= j < |PanelLabels| => Button(PanelLabels[j], true))
  }
}
