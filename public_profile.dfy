/**
 * PublicProfileScreen: another user's profile with its own
 * `selectedCollection`, scoped to that user's wallet.
 */
module PublicProfile {
  import opened Wrappers
  import opened Js
  import opened Grouping
  import opened SearchScreen

  datatype ProfileScreen =
    | ProfileCollectionDetail(collection: Collection)
    | ProfilePage(heading: string, handle: string, collectionsWallet: Option<string>)

  /** `{user.first_name || 'User'}'s Profile`. */
  function Heading(user: UserSummary): (h: string)
    ensures TruthyText(user.firstName) ==> h == user.firstName.value + "'s Profile"
    ensures !TruthyText(user.firstName) ==> h == "User's Profile"
  {
    OrText(user.firstName, "User") + "'s Profile"
  }

  /** `@{user.username || 'No username'}`. */
  function Handle(user: UserSummary): (h: string)
    ensures user.username != "" ==> h == "@" + user.username
    ensures user.username == "" ==> h == "@No username"
  {
    "@" + OrText(Some(user.username), "No username")
  }

  /** The detail screen while a collection is selected, otherwise the profile page. */
  function ProfileScreenOf(user: UserSummary, selected: Option<Collection>): (s: ProfileScreen)
    ensures s.ProfileCollectionDetail? <==> selected.Some?
    ensures selected.Some? ==> s.collection == selected.value
    ensures selected.None? ==> s == ProfilePage(Heading(user), Handle(user), user.walletAddress)
  {
    match selected
    case Some(c) => ProfileCollectionDetail(c)
    case None => ProfilePage(Heading(user), Handle(user), user.walletAddress)
  }

  /** The three controls the screen wires up. */
  datatype ProfileAction = BackToSearch | PickCollection(collection: Collection) | BackFromCollection

  class PublicProfileScreen {
    var selectedCollection: Option<Collection>

    constructor ()
      ensures selectedCollection == None
    {
      selectedCollection := None;
    }

    function Screen(user: UserSummary): ProfileScreen
      reads this
    {
      ProfileScreenOf(user, selectedCollection)
    }

    /**
     * One press: "Back to Search" calls the parent's `onBack` and leaves the
     * state alone; the nested collections list selects; the detail's back
     * clears.
     */
    method Press(action: ProfileAction) returns (callsOnBack: bool)
      modifies this
      ensures callsOnBack <==> action.BackToSearch?
      ensures action.BackToSearch? ==> selectedCollection == old(selectedCollection)
      ensures action.PickCollection? ==> selectedCollection == Some(action.collection)
      ensures action.BackFromCollection? ==> selectedCollection == None
    {
      match action {
        case BackToSearch =>
          return true;
        case PickCollection(c) =>
          selectedCollection := Some(c);
        case BackFromCollection =>
          selectedCollection := None;
      }
      return false;
    }
  }
}
