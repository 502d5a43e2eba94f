/**
 * The start screen's view model: the categories offered, the selected one, the quorum, and
 * the session created from them. The category record's decoder is not part of this model:
 * categories are of any type `C` with an id.
 */
module StartSession {
  import opened Wrappers
  import opened Models

  const MinQuorum := 2
  const MaxQuorum := 5
  const InvitePrefix := "Join my Agreet session with code: "

  datatype FetchOutcome<T> = Fetched(value: T) | FetchFailed(description: string)

  class StartSessionViewModel<P, C> {
    /** `Category.id`. */
    const categoryId: C -> Uuid
    var categories: seq<C>
    var selectedCategoryId: Option<Uuid>
    var quorum: int
    var isLoading: bool
    var errorMessage: Option<string>
    var createdSession: Option<Session<P, C>>
    var showShareSheet: bool

    /** The initial state; the category load `init` starts is `LoadCategories`. */
    constructor (categoryId: C -> Uuid)
      ensures this.categoryId == categoryId
      ensures categories == [] && selectedCategoryId == None && quorum == 2
      ensures !isLoading && errorMessage == None && createdSession == None && !showShareSheet
      ensures MinQuorum <= quorum <= MaxQuorum
    {
      this.categoryId := categoryId;
      categories := [];
      selectedCategoryId := None;
      quorum := 2;
      isLoading := false;
      errorMessage := None;
      createdSession := None;
      showShareSheet := false;
    }

    /** `loadCategories`: a non-empty list selects its first category, replacing any selection. */
    method LoadCategories(outcome: FetchOutcome<seq<C>>)
      modifies this`isLoading, this`errorMessage, this`categories, this`selectedCategoryId
      ensures !isLoading
      ensures outcome.Fetched? ==> categories == outcome.value && errorMessage == None
      ensures outcome.Fetched? && outcome.value != [] ==> selectedCategoryId == Some(categoryId(outcome.value[0]))
      ensures outcome.Fetched? && outcome.value == [] ==> selectedCategoryId == old(selectedCategoryId)
      ensures outcome.FetchFailed? ==> categories == old(categories) && selectedCategoryId == old(selectedCategoryId)
                                       && errorMessage == Some("Failed to load categories: " + outcome.description)
    {
      isLoading := true;
      errorMessage := None;
      match outcome
      case Fetched(cs) =>
        categories := cs;
        if cs != [] {
          selectedCategoryId := Some(categoryId(cs[0]));
        }
        isLoading := false;
      case FetchFailed(d) =>
        isLoading := false;
        errorMessage := Some("Failed to load categories: " + d);
    }

    /**
     * `createSession` up to the network call: without a selected category only the error
     * message changes; otherwise returns the category and the quorum to send, the quorum
     * as it is, with no clamping.
     */
    method BeginCreate() returns (request: Option<(Uuid, int)>)
      modifies this`isLoading, this`errorMessage
      ensures request.None? <==> selectedCategoryId.None?
      ensures request.None? ==> errorMessage == Some("Please select a category") && isLoading == old(isLoading)
      ensures request.Some? ==> request.value == (selectedCategoryId.value, quorum) && isLoading && errorMessage == None
    {
      if selectedCategoryId.None? {
        errorMessage := Some("Please select a category");
        return None;
      }
      isLoading := true;
      errorMessage := None;
      return Some((selectedCategoryId.value, quorum));
    }

    /** `createSession` after the network call. */
    method CompleteCreate(outcome: FetchOutcome<Session<P, C>>) returns (created: bool)
      modifies this`isLoading, this`errorMessage, this`createdSession
      ensures !isLoading
      ensures created <==> outcome.Fetched?
      ensures outcome.Fetched? ==> createdSession == Some(outcome.value) && errorMessage == old(errorMessage)
      ensures outcome.FetchFailed? ==> createdSession == old(createdSession)
                                       && errorMessage == Some("Failed to create session: " + outcome.description)
    {
      match outcome
      case Fetched(s) =>
        createdSession := Some(s);
        isLoading := false;
        return true;
      case FetchFailed(d) =>
        isLoading := false;
        errorMessage := Some("Failed to create session: " + d);
        return false;
    }

    /** `inviteCode`: empty until a session exists. */
    function InviteCode(): (code: string)
      reads this
      ensures createdSession.None? ==> code == ""
      ensures createdSession.Some? ==> code == createdSession.value.inviteCode
    {
      match createdSession
      case Some(s) => s.inviteCode
      case None => ""
    }

    /** `inviteMessage`: the fixed text followed by the code, which can be read back from it. */
    function InviteMessage(): (m: string)
      reads this
      ensures |m| >= |InvitePrefix| && m[..|InvitePrefix|] == InvitePrefix
      ensures m[|InvitePrefix|..] == InviteCode()
    {
      InvitePrefix + InviteCode()
    }
  }
}
