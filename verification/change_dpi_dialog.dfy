/**
 * The logic of the output filter's "Change DPI" dialog: the selector that
 * offers the preset resolutions 300, 400 and 600 plus an editable custom
 * slot, and the submit step that validates the chosen DPI and turns the
 * checked scope into the set of pages to change.
 */
module Output {
  import opened DecimalText
  import opened PageSequence

  datatype Option<T> = None | Some(value: T)

  /** A resolution: horizontal and vertical dots per inch. */
  datatype Dpi = Dpi(horizontal: int, vertical: int)

  /** The four scope radio buttons. */
  datatype Scope = ThisPage | AllPages | ThisPageAndFollowers | SelectedPages

  /** The three warnings of a refused submit. */
  datatype DpiError = NotSet | TooLow | TooHigh

  datatype Validated = Valid(dpi: int) | Invalid(error: DpiError)

  /** What a submit does: a warning and no signal, or one `accepted(pages, dpi)` signal. */
  datatype SubmitResult = Rejected(error: DpiError) | Accepted(pages: set<PageId>, dpi: Dpi)

  /** One entry of the DPI selector: its displayed text and its item data. */
  datatype ComboItem = ComboItem(text: string, data: string)

  /** What the dialog reads from its PageSelectionAccessor when it is built. */
  datatype PageSelectionAccessor = PageSelectionAccessor(allPages: seq<PageId>, selectedPages: set<PageId>)

  /** The selector's two states: a preset chosen, or the custom value being edited. */
  datatype SelectorState = PresetSelected(index: nat) | CustomEditing(text: string)

  const CommonDpis: seq<int> := [300, 400, 600]
  const MinDpi: int := 72
  const MaxDpi: int := 12800
  const CustomLabel: string := "Custom"

  /** The requested DPI is the larger of the two dimensions. */
  function RequestedDpi(dpi: Dpi): (r: int)
    ensures r >= dpi.horizontal && r >= dpi.vertical
    ensures r == dpi.horizontal || r == dpi.vertical
  {
    if dpi.horizontal >= dpi.vertical then dpi.horizontal else dpi.vertical
  }

  /** The guard chain of the submit step: empty text, then too low, then too high. */
  function ValidateDpi(text: string): (r: Validated)
    ensures r == Invalid(NotSet) <==> text == []
    ensures r.Valid? ==> MinDpi <= r.dpi <= MaxDpi
    ensures r.Valid? ==> IsIntegerText(text) && r.dpi == IntegerValue(text)
  {
    if text == [] then Invalid(NotSet)
    else
      var dpi := ToInt(text);
      if dpi < MinDpi then Invalid(TooLow)
      else if dpi > MaxDpi then Invalid(TooHigh)
      else Valid(dpi)
  }

  /** The pages the checked scope button stands for; no button checked gives no pages. */
  function ResolveScope(checked: Option<Scope>, curPage: PageId, pages: seq<PageId>,
                        selectedPages: set<PageId>): (r: set<PageId>)
    ensures checked != Some(SelectedPages) ==> r <= SelectAll(pages) + {curPage}
    ensures checked == Some(SelectedPages) ==> r == selectedPages
  {
    match checked
    case None => {}
    case Some(ThisPage) => {curPage}
    case Some(AllPages) => SelectAll(pages)
    case Some(ThisPageAndFollowers) => SelectPagePlusFollowers(pages, curPage)
    case Some(SelectedPages) => selectedPages
  }

  /**
   * The submit step: the text is validated first, and only a valid DPI `d`
   * leads to the signal, with the resolved pages and the isotropic (d, d).
   */
  function Submit(text: string, checked: Option<Scope>, curPage: PageId, pages: seq<PageId>,
                  selectedPages: set<PageId>): (r: SubmitResult)
    ensures r.Accepted? <==> ValidateDpi(text).Valid?
    ensures r.Rejected? ==> r.error == ValidateDpi(text).error
    ensures r.Accepted? ==> r.dpi.horizontal == r.dpi.vertical
    ensures r.Accepted? ==> MinDpi <= r.dpi.horizontal <= MaxDpi
    ensures r.Accepted? ==> IsIntegerText(text) && r.dpi == Dpi(IntegerValue(text), IntegerValue(text))
    ensures r.Accepted? ==> r.pages == ResolveScope(checked, curPage, pages, selectedPages)
  {
    match ValidateDpi(text)
    case Invalid(e) => Rejected(e)
    case Valid(d) => Accepted(ResolveScope(checked, curPage, pages, selectedPages), Dpi(d, d))
  }

  /**
   * The decimal text of any `int` is accepted exactly when the value lies in
   * [72, 12800], with the value itself; below it is too low, above too high.
   */
  lemma ValidateNumber(d: int)
    requires Int32Min <= d <= Int32Max
    ensures ValidateDpi(NumberToString(d)) ==
            if d < MinDpi then Invalid(TooLow) else if d > MaxDpi then Invalid(TooHigh) else Valid(d)
  {
    ToIntOfNumber(d);
  }

  /** Non-empty text that is not a number is reported as too low: there is no separate error. */
  lemma ValidateNonNumeric(text: string)
    requires text != [] && !IsIntegerText(text)
    ensures ValidateDpi(text) == Invalid(TooLow)
  {
  }

  /** A number too large for an `int` converts to 0 and so is reported as too low, not too high. */
  lemma ValidateOverflow(n: nat)
    requires n > Int32Max
    ensures ValidateDpi(Digits(n)) == Invalid(TooLow)
  {
    ToIntOverflow(n);
  }

  /** Membership in the resolved page set, scope by scope. */
  lemma ResolveScopeMembers(checked: Option<Scope>, curPage: PageId, pages: seq<PageId>,
                            selectedPages: set<PageId>, p: PageId)
    requires Distinct(pages)
    ensures p in ResolveScope(checked, curPage, pages, selectedPages) <==>
            match checked
            case None => false
            case Some(ThisPage) => p == curPage
            case Some(AllPages) => p in pages
            case Some(ThisPageAndFollowers) =>
              exists i, j :: 0 <= i <= j < |pages| && pages[i] == curPage && pages[j] == p
            case Some(SelectedPages) => p in selectedPages
  {
    if checked == Some(ThisPageAndFollowers) {
      PlusFollowersMembers(pages, curPage, p);
    }
  }

  /**
   * The dialog. Its fields are the pages it was given, the state of the DPI
   * selector (items, current index, editable flag, line-edit text), the
   * remembered custom DPI text, the index of the custom item, and whether
   * the dialog has been accepted (closed).
   */
  class ChangeDpiDialog {
    const pages: seq<PageId>
    const selectedPages: set<PageId>
    const curPage: PageId
    var items: seq<ComboItem>
    var selectedIndex: int
    var editable: bool
    var editText: string
    var customDpiString: string
    var customItemIdx: int
    var accepted: bool

    /**
     * The selector lists the presets and then the custom item; it is
     * editable exactly when the custom item is current, and then it shows
     * the remembered custom text.
     */
    ghost predicate Valid()
      reads this
    {
      |items| == |CommonDpis| + 1 &&
      customItemIdx == |CommonDpis| &&
      (forall j :: 0 <= j < |CommonDpis| ==> items[j].text == NumberToString(CommonDpis[j])) &&
      items[customItemIdx].text == CustomLabel &&
      0 <= selectedIndex < |items| &&
      (editable <==> selectedIndex == customItemIdx) &&
      (editable ==> editText == customDpiString)
    }

    ghost function State(): SelectorState
      reads this
      requires Valid()
    {
      if selectedIndex == customItemIdx then CustomEditing(customDpiString) else PresetSelected(selectedIndex)
    }

    /** The selector's current text: the line edit when editable, else the current item's text. */
    function CurrentText(): (t: string)
      reads this
      requires Valid()
      ensures selectedIndex == customItemIdx ==> t == customDpiString
      ensures selectedIndex != customItemIdx ==> t == NumberToString(CommonDpis[selectedIndex])
    {
      if editable then editText else items[selectedIndex].text
    }

    /** Builds the selector from the current resolution `dpi`. */
    constructor (dpi: Dpi, curPage: PageId, accessor: PageSelectionAccessor)
      ensures Valid()
      ensures pages == accessor.allPages && selectedPages == accessor.selectedPages
      ensures this.curPage == curPage && !accepted
      ensures customItemIdx == |CommonDpis|
      ensures customDpiString == NumberToString(RequestedDpi(dpi))
      ensures RequestedDpi(dpi) in CommonDpis ==>
                selectedIndex < |CommonDpis| && CommonDpis[selectedIndex] == RequestedDpi(dpi) && !editable
      ensures RequestedDpi(dpi) !in CommonDpis ==>
                selectedIndex == customItemIdx && editable && editText == customDpiString
    {
      pages := accessor.allPages;
      selectedPages := accessor.selectedPages;
      this.curPage := curPage;
      var requested := RequestedDpi(dpi);
      var custom := NumberToString(requested);
      var entries: seq<ComboItem> := [];
      var selected := -1;
      for k := 0 to |CommonDpis|
        invariant |entries| == k
        invariant forall j :: 0 <= j < k ==> entries[j].text == NumberToString(CommonDpis[j])
        invariant selected == -1 ==> requested !in CommonDpis[..k]
        invariant selected != -1 ==> 0 <= selected < k && CommonDpis[selected] == requested
      {
        if CommonDpis[k] == requested {
          selected := |entries|;
        }
        var s := NumberToString(CommonDpis[k]);
        entries := entries + [ComboItem(s, s)];
      }
      customDpiString := custom;
      customItemIdx := |entries|;
      items := entries + [ComboItem(CustomLabel, custom)];
      if selected != -1 {
        selectedIndex := selected;
        editable := false;
        editText := "";
      } else {
        selectedIndex := |entries|;
        editable := true;
        editText := custom;
      }
      accepted := false;
      assert CommonDpis[..|CommonDpis|] == CommonDpis;
    }

    /**
     * The user picked item `index`: the selector becomes editable exactly for
     * the custom item, whose text is then restored from the remembered one.
     */
    method DpiSelectionChanged(index: int)
      requires Valid()
      requires 0 <= index < |items|
      modifies this`selectedIndex, this`editable, this`editText
      ensures Valid()
      ensures selectedIndex == index
      ensures editable <==> index == customItemIdx
      ensures index == customItemIdx ==> editText == customDpiString
      ensures index != customItemIdx ==> editText == old(editText)
      ensures State() == if index == customItemIdx then CustomEditing(customDpiString) else PresetSelected(index)
    {
      selectedIndex := index;
      editable := index == customItemIdx;
      if index == customItemIdx {
        editText := customDpiString;
      }
    }

    /**
     * The line edit now reads `text`: it is remembered as the custom DPI
     * only while the custom item is current; otherwise nothing changes.
     */
    method DpiEditTextChanged(text: string)
      requires Valid()
      modifies this`editText, this`customDpiString
      ensures Valid()
      ensures old(selectedIndex == customItemIdx) ==> customDpiString == text && editText == text
      ensures old(selectedIndex != customItemIdx) ==>
                customDpiString == old(customDpiString) && editText == old(editText)
    {
      if editable {
        editText := text;
      }
      if selectedIndex == customItemIdx {
        customDpiString := text;
      }
    }

    /**
     * OK pressed with scope button `checked`: the submit step on the
     * selector's current text; the dialog closes only when it is accepted.
     */
    method OnSubmit(checked: Option<Scope>) returns (r: SubmitResult)
      requires Valid()
      modifies this`accepted
      ensures r == Submit(CurrentText(), checked, curPage, pages, selectedPages)
      ensures accepted == (old(accepted) || r.Accepted?)
    {
      r := Submit(CurrentText(), checked, curPage, pages, selectedPages);
      if r.Accepted? {
        accepted := true;
      }
    }
  }

  /** A preset resolution: the larger dimension, 600, selects the third preset. */
  method PresetScenario()
  {
    var p1, p2, p3 := PageId(1), PageId(2), PageId(3);
    var dialog := new ChangeDpiDialog(Dpi(600, 300), p1, PageSelectionAccessor([p1, p2, p3], {}));
    assert 600 in CommonDpis;
    assert dialog.selectedIndex == 2 && !dialog.editable;
    ValidateNumber(600);
    var r := dialog.OnSubmit(Some(AllPages));
    assert r.dpi == Dpi(600, 600) && r.pages == SelectAll([p1, p2, p3]);
    assert dialog.accepted;
  }

  /** A custom resolution: 450 selects the custom item, which keeps what was typed into it. */
  method CustomScenario()
  {
    var p1 := PageId(1);
    var dialog := new ChangeDpiDialog(Dpi(450, 450), p1, PageSelectionAccessor([p1], {}));
    assert 450 !in CommonDpis;
    assert dialog.selectedIndex == 3 && dialog.editable;

    assert NumberToString(50) == "50";
    ValidateNumber(50);
    dialog.DpiEditTextChanged("50");
    var r := dialog.OnSubmit(Some(ThisPage));
    assert r == Rejected(TooLow) && !dialog.accepted;

    dialog.DpiSelectionChanged(0);
    dialog.DpiEditTextChanged("800");
    dialog.DpiSelectionChanged(3);
    assert dialog.CurrentText() == "50";
  }
}
