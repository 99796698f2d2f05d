/**
 * App.jsx: the tab dispatch of `App`, the selection state of
 * `CollectionsTab`, and `ShowcasesTab` with its `view`,
 * `selectedShowcase` and `isSubmitting` fields, its create handler and
 * its export handler.
 */
module Navigator {
  import opened Wrappers
  import opened Nfts
  import opened Grouping
  import opened Decimal
  import opened CreateForm

  // ---------------------------------------------------------------------
  // CollectionsTab

  datatype CollectionsTabScreen =
    | CollectionDetail(collection: Collection)
    | MyCollections(walletAddress: string)

  class CollectionsTab {
    var selectedCollection: Option<Collection>

    constructor ()
      ensures selectedCollection == None
    {
      selectedCollection := None;
    }

    /** The detail screen exactly while a collection is selected. */
    function Screen(walletAddress: string): (s: CollectionsTabScreen)
      reads this
      ensures s.CollectionDetail? <==> selectedCollection.Some?
      ensures s.CollectionDetail? ==> s.collection == selectedCollection.value
      ensures s.MyCollections? ==> s.walletAddress == walletAddress
    {
      match selectedCollection
      case Some(c) => CollectionDetail(c)
      case None => MyCollections(walletAddress)
    }

    /** `onSelectCollection`. */
    method SelectCollection(c: Collection)
      modifies this
      ensures selectedCollection == Some(c)
    {
      selectedCollection := Some(c);
    }

    /** The detail screen's `onBack`. */
    method Back()
      modifies this
      ensures selectedCollection == None
    {
      selectedCollection := None;
    }
  }

  // ---------------------------------------------------------------------
  // ShowcasesTab

  /** The two values `view` is ever set to. */
  datatype View = ListView | CreateView

  datatype ShowcasesTabScreen =
    | ShowcaseDetail(showcase: Showcase)
    | CreateShowcase(submitDisabled: bool)
    | MyShowcases

  /** The body of `POST /showcases`. */
  datatype CreateRequest = CreateRequest(telegramId: int, title: string, description: string)

  const CREATE_FAILED_ALERT: string := "Error: Could not create showcase."

  /** The render `if` chain: a selected showcase wins over `view`. */
  function ScreenOf(view: View, selected: Option<Showcase>, isSubmitting: bool): (s: ShowcasesTabScreen)
    ensures selected.Some? ==> s == ShowcaseDetail(selected.value)
    ensures selected.None? && view == CreateView ==> s == CreateShowcase(SubmitDisabled(isSubmitting))
    ensures selected.None? && view == ListView ==> s == MyShowcases
  {
    if selected.Some? then ShowcaseDetail(selected.value)
    else if view == CreateView then CreateShowcase(isSubmitting)
    else MyShowcases
  }

  class ShowcasesTab {
    var view: View
    var selectedShowcase: Option<Showcase>
    var isSubmitting: bool

    constructor ()
      ensures view == ListView && selectedShowcase == None && !isSubmitting
      ensures Screen() == MyShowcases
    {
      view := ListView;
      selectedShowcase := None;
      isSubmitting := false;
    }

    function Screen(): ShowcasesTabScreen
      reads this
    {
      ScreenOf(view, selectedShowcase, isSubmitting)
    }

    /** `onCreateNew` of the list. */
    method OpenCreate()
      modifies this`view
      ensures view == CreateView
    {
      view := CreateView;
    }

    /** `onBack` of the create form. */
    method BackFromCreate()
      modifies this`view
      ensures view == ListView
    {
      view := ListView;
    }

    /** `onSelectShowcase` of the list. */
    method SelectShowcase(s: Showcase)
      modifies this`selectedShowcase
      ensures selectedShowcase == Some(s) && Screen() == ShowcaseDetail(s)
    {
      selectedShowcase := Some(s);
    }

    /** `onBack` of the detail screen. */
    method BackFromDetail()
      modifies this`selectedShowcase
      ensures selectedShowcase == None
    {
      selectedShowcase := None;
    }

    /**
     * `handleCreateSubmit` up to its `await`: ignored while a submission
     * is in flight; otherwise marks one in flight and posts the request.
     */
    method BeginCreate(telegramId: int, draft: ShowcaseDraft) returns (request: Option<CreateRequest>)
      modifies this`isSubmitting
      ensures old(isSubmitting) ==> request == None && isSubmitting
      ensures !old(isSubmitting) ==>
        request == Some(CreateRequest(telegramId, draft.title, draft.description)) && isSubmitting
    {
      if isSubmitting {
        return None;
      }
      isSubmitting := true;
      return Some(CreateRequest(telegramId, draft.title, draft.description));
    }

    /**
     * The rest of `handleCreateSubmit`: success returns to the list, failure
     * alerts and leaves `view` alone; `finally` clears `isSubmitting`.
     */
    method FinishCreate(succeeded: bool) returns (alert: Option<string>)
      modifies this`view, this`isSubmitting
      ensures !isSubmitting
      ensures succeeded ==> view == ListView && alert == None
      ensures !succeeded ==> view == old(view) && alert == Some(CREATE_FAILED_ALERT)
    {
      alert := None;
      if succeeded {
        view := ListView;
      } else {
        alert := Some(CREATE_FAILED_ALERT);
      }
      isSubmitting := false;
    }
  }

  // ---------------------------------------------------------------------
  // handleExport

  /** The browser effects of `handleExport`, in order. */
  datatype BrowserEffect =
    | CreateObjectUrl
    | ClickDownload(fileName: string)
    | RevokeObjectUrl
    | Alert(message: string)

  /** The outcome of `POST /showcases/{id}/export`: failed, or an image body. */
  type ExportResponse = Response<seq<int>>

  const EXPORT_FAILED_ALERT: string := "Failed to export collage."

  /** `showcase-${showcaseId}-collage.png`. */
  function ExportFileName(showcaseId: nat): string {
    "showcase-" + NatToDecimal(showcaseId) + "-collage.png"
  }

  /** Two showcases never get the same download name. */
  lemma ExportFileNamesDiffer(a: nat, b: nat)
    requires a != b
    ensures ExportFileName(a) != ExportFileName(b)
  {
    if ExportFileName(a) == ExportFileName(b) {
      var da, db := NatToDecimal(a), NatToDecimal(b);
      assert |da| == |db|;
      assert da == ExportFileName(a)[9..9 + |da|];
      assert db == ExportFileName(b)[9..9 + |db|];
      DecimalInjective(a, b);
    }
  }

  /**
   * On success: an object URL is created, the link downloads under the
   * showcase's file name, and the URL is revoked after the click. On
   * failure: only the alert.
   */
  function ExportEffects(showcaseId: nat, response: ExportResponse): (effects: seq<BrowserEffect>)
    ensures response.RequestFailed? ==> effects == [Alert(EXPORT_FAILED_ALERT)]
    ensures response.Received? ==>
      && |effects| == 3
      && effects[0] == CreateObjectUrl
      && effects[1] == ClickDownload(ExportFileName(showcaseId))
      && effects[2] == RevokeObjectUrl
  {
    match response
    case RequestFailed => [Alert(EXPORT_FAILED_ALERT)]
    case Received(_) => [CreateObjectUrl, ClickDownload(ExportFileName(showcaseId)), RevokeObjectUrl]
  }

  // ---------------------------------------------------------------------
  // App

  /** The signed-in user: `mockUser` in the source. */
  datatype AppUser = AppUser(id: int, walletAddress: string)

  datatype AppScreen =
    | ConnectWalletPrompt
    | CollectionsTabShown(walletAddress: string)
    | ShowcasesTabShown(telegramId: int)
    | MarketPlaceholder
    | ProfilePlaceholder

  const INITIAL_TAB: string := "collections"

  /** `renderContent`: no user gives the prompt, then the `switch` on the tab. */
  function RenderContent(user: Option<AppUser>, activeTab: string): (s: AppScreen)
    ensures user.None? <==> s == ConnectWalletPrompt
    ensures user.Some? && activeTab == "showcases" ==> s == ShowcasesTabShown(user.value.id)
    ensures user.Some? && activeTab !in {"showcases", "market", "profile"} ==>
      s == CollectionsTabShown(user.value.walletAddress)
    ensures user.Some? && activeTab == "market" <==> s == MarketPlaceholder
    ensures user.Some? && activeTab == "profile" <==> s == ProfilePlaceholder
  {
    match user
    case None => ConnectWalletPrompt
    case Some(u) =>
      if activeTab == "collections" then CollectionsTabShown(u.walletAddress)
      else if activeTab == "showcases" then ShowcasesTabShown(u.id)
      else if activeTab == "market" then MarketPlaceholder
      else if activeTab == "profile" then ProfilePlaceholder
      else CollectionsTabShown(u.walletAddress)
  }

  class App {
    var activeTab: string

    constructor ()
      ensures activeTab == INITIAL_TAB
    {
      activeTab := INITIAL_TAB;
    }

    /** `BottomNav`'s `onTabChange`. */
    method ChangeTab(tab: string)
      modifies this
      ensures activeTab == tab
    {
      activeTab := tab;
    }

    function Screen(user: Option<AppUser>): AppScreen
      reads this
    {
      RenderContent(user, activeTab)
    }
  }
}
