/**
 * The settings screen's view model: the username editor with its validation, and the two
 * alerts. The backend update of the username is an outcome given to `SaveUsername`; the
 * auth service's current user is kept as its username.
 */
module Settings {
  import opened Wrappers
  import opened SwiftStrings

  const UnknownUser := "Unknown User"
  const EmptyMessage := "Username cannot be empty"
  const FormatMessage := "Username can only contain letters, numbers, and underscores"
  const FailedMessage := "Failed to update username. Please try again."
  const UpdatedMessage := "Username updated successfully"

  /** `[a-zA-Z0-9_]`. */
  predicate IsUsernameChar(c: char) {
    'a' <= c <= 'z' || 'A' <= c <= 'Z' || '0' <= c <= '9' || c == '_'
  }

  /** What `^[a-zA-Z0-9_]{3,20}$` accepts: 3 to 20 characters, each a letter, digit or '_'. */
  predicate IsValidUsername(s: string) {
    3 <= |s| <= 20 && forall k :: 0 <= k < |s| ==> IsUsernameChar(s[k])
  }

  /**
   * The pattern run as a matcher does: one class character at a time, counting, and
   * stopping at a 21st character or one outside the class.
   */
  function MatchRepeat(s: string, count: nat): (b: bool)
    decreases |s|
  {
    if s == [] then 3 <= count <= 20
    else if count == 20 || !IsUsernameChar(s[0]) then false
    else MatchRepeat(s[1..], count + 1)
  }

  /** The matcher, started after `count` matched characters, accepts the rest exactly when the bounds and the class hold. */
  lemma {:induction false} MatchRepeatCorrect(s: string, count: nat)
    requires count <= 20
    ensures MatchRepeat(s, count) <==> 3 <= count + |s| <= 20 && forall k :: 0 <= k < |s| ==> IsUsernameChar(s[k])
    decreases |s|
  {
    if s != [] && count < 20 && IsUsernameChar(s[0]) {
      MatchRepeatCorrect(s[1..], count + 1);
      assert forall k :: 0 < k < |s| ==> s[k] == s[1..][k - 1];
    }
  }

  /** `isValidUsername`: the matcher on the whole string. */
  function UsernameMatches(s: string): (b: bool)
    ensures b <==> IsValidUsername(s)
  {
    MatchRepeatCorrect(s, 0);
    MatchRepeat(s, 0)
  }

  /** The name shown for a user: the username, or "Unknown User" when no one is signed in. */
  function UsernameOf(user: Option<string>): (name: string)
    ensures user.None? ==> name == UnknownUser
    ensures user.Some? ==> name == user.value
  {
    match user
    case Some(u) => u
    case None => UnknownUser
  }

  /** Where `saveUsername`'s checks leave an edited name, before any backend call. */
  datatype SaveStep = EmptyName | Unchanged | Malformed | Send(name: string)

  /**
   * The three guards of `saveUsername` in order: an empty trimmed name, a name equal to
   * the current one, a name outside the pattern; anything else is sent, trimmed.
   */
  function SaveStepOf(editing: string, user: Option<string>): (step: SaveStep)
    ensures step.EmptyName? <==> Trim(editing) == ""
    ensures step.Unchanged? <==> Trim(editing) != "" && Trim(editing) == UsernameOf(user)
    ensures step.Malformed? <==> Trim(editing) != "" && Trim(editing) != UsernameOf(user) && !IsValidUsername(Trim(editing))
    ensures step.Send? <==> Trim(editing) != "" && Trim(editing) != UsernameOf(user) && IsValidUsername(Trim(editing))
    ensures step.Send? ==> step.name == Trim(editing) && IsValidUsername(step.name)
  {
    var trimmed := Trim(editing);
    if trimmed == "" then EmptyName
    else if trimmed == UsernameOf(user) then Unchanged
    else if !UsernameMatches(trimmed) then Malformed
    else Send(trimmed)
  }

  class SettingsViewModel {
    var isEditingUsername: bool
    var editingUsername: string
    var showErrorAlert: bool
    var showSuccessAlert: bool
    var errorMessage: string
    var successMessage: string
    /** The username of the auth service's current user, if someone is signed in. */
    var currentUser: Option<string>

    /** `currentUsername`. */
    function CurrentUsername(): (name: string)
      reads this
      ensures currentUser.None? ==> name == UnknownUser
      ensures currentUser.Some? ==> name == currentUser.value
    {
      UsernameOf(currentUser)
    }

    /** `init` with `loadUserData`: the editor starts with the current username. */
    constructor (currentUser: Option<string>)
      ensures this.currentUser == currentUser && editingUsername == CurrentUsername()
      ensures !isEditingUsername && !showErrorAlert && !showSuccessAlert
      ensures errorMessage == "" && successMessage == ""
    {
      this.currentUser := currentUser;
      isEditingUsername := false;
      showErrorAlert := false;
      showSuccessAlert := false;
      errorMessage := "";
      successMessage := "";
      editingUsername := if currentUser.Some? then currentUser.value else UnknownUser;
    }

    /** `showError`: only the error alert's fields change. */
    method ShowError(message: string)
      modifies this`errorMessage, this`showErrorAlert
      ensures errorMessage == message && showErrorAlert
    {
      errorMessage := message;
      showErrorAlert := true;
    }

    /** `showSuccess`: only the success alert's fields change. */
    method ShowSuccess(message: string)
      modifies this`successMessage, this`showSuccessAlert
      ensures successMessage == message && showSuccessAlert
    {
      successMessage := message;
      showSuccessAlert := true;
    }

    method StartUsernameEdit()
      modifies this`editingUsername, this`isEditingUsername
      ensures editingUsername == CurrentUsername() && isEditingUsername
    {
      editingUsername := CurrentUsername();
      isEditingUsername := true;
    }

    method CancelUsernameEdit()
      modifies this`editingUsername, this`isEditingUsername
      ensures editingUsername == CurrentUsername() && !isEditingUsername
    {
      editingUsername := CurrentUsername();
      isEditingUsername := false;
    }

    /**
     * `saveUsername`, given whether the backend would accept the update. Returns the
     * name sent to the backend, if the checks let the update through.
     */
    method SaveUsername(backendAccepts: bool) returns (sent: Option<string>)
      modifies this`isEditingUsername, this`errorMessage, this`showErrorAlert,
               this`successMessage, this`showSuccessAlert, this`currentUser
      // the backend is reached only with a changed, well-formed name
      ensures var step := SaveStepOf(old(editingUsername), old(currentUser));
              sent == if step.Send? then Some(step.name) else None
      // an empty or malformed name is an error and editing goes on
      ensures var step := SaveStepOf(old(editingUsername), old(currentUser));
              step.EmptyName? || step.Malformed?
              ==> errorMessage == (if step.EmptyName? then EmptyMessage else FormatMessage) && showErrorAlert
                  && isEditingUsername == old(isEditingUsername)
      // an unchanged name ends editing quietly
      ensures SaveStepOf(old(editingUsername), old(currentUser)).Unchanged?
              ==> !isEditingUsername && errorMessage == old(errorMessage) && showErrorAlert == old(showErrorAlert)
      // the backend's answer: success needs a signed-in user
      ensures sent.Some? && backendAccepts && old(currentUser).Some?
              ==> !isEditingUsername && successMessage == UpdatedMessage && showSuccessAlert
                  && currentUser == sent && showErrorAlert == old(showErrorAlert)
      ensures sent.Some? && !(backendAccepts && old(currentUser).Some?)
              ==> errorMessage == FailedMessage && showErrorAlert && isEditingUsername == old(isEditingUsername)
      ensures !(sent.Some? && backendAccepts && old(currentUser).Some?)
              ==> currentUser == old(currentUser) && successMessage == old(successMessage)
                  && showSuccessAlert == old(showSuccessAlert)
    {
      sent := ApplyStep(SaveStepOf(editingUsername, currentUser), backendAccepts);
    }

    /** The effect of each outcome of the checks, and of the backend's answer to a sent name. */
    method ApplyStep(step: SaveStep, backendAccepts: bool) returns (sent: Option<string>)
      modifies this`isEditingUsername, this`errorMessage, this`showErrorAlert,
               this`successMessage, this`showSuccessAlert, this`currentUser
      ensures sent == if step.Send? then Some(step.name) else None
      ensures step.EmptyName? || step.Malformed?
              ==> errorMessage == (if step.EmptyName? then EmptyMessage else FormatMessage) && showErrorAlert
                  && isEditingUsername == old(isEditingUsername)
      ensures step.Unchanged?
              ==> !isEditingUsername && errorMessage == old(errorMessage) && showErrorAlert == old(showErrorAlert)
      ensures sent.Some? && backendAccepts && old(currentUser).Some?
              ==> !isEditingUsername && successMessage == UpdatedMessage && showSuccessAlert
                  && currentUser == sent && showErrorAlert == old(showErrorAlert)
      ensures sent.Some? && !(backendAccepts && old(currentUser).Some?)
              ==> errorMessage == FailedMessage && showErrorAlert && isEditingUsername == old(isEditingUsername)
      ensures !(sent.Some? && backendAccepts && old(currentUser).Some?)
              ==> currentUser == old(currentUser) && successMessage == old(successMessage)
                  && showSuccessAlert == old(showSuccessAlert)
    {
      sent := None;
      match step
      case EmptyName =>
        ShowError(EmptyMessage);
      case Unchanged =>
        isEditingUsername := false;
      case Malformed =>
        ShowError(FormatMessage);
      case Send(trimmed) =>
        sent := Some(trimmed);
        if backendAccepts && currentUser.Some? {
          currentUser := Some(trimmed);
          isEditingUsername := false;
          ShowSuccess(UpdatedMessage);
        } else {
          ShowError(FailedMessage);
        }
    }

    /** `showHelp`. */
    method ShowHelp()
      modifies this`successMessage, this`showSuccessAlert
      ensures successMessage == "Help & Support coming soon!" && showSuccessAlert
    {
      ShowSuccess("Help & Support coming soon!");
    }

    /** `showPrivacyPolicy`. */
    method ShowPrivacyPolicy()
      modifies this`successMessage, this`showSuccessAlert
      ensures successMessage == "Privacy Policy coming soon!" && showSuccessAlert
    {
      ShowSuccess("Privacy Policy coming soon!");
    }
  }

  /** The fallback name cannot be saved: it holds a space. */
  lemma UnknownUserIsInvalid()
    ensures !IsValidUsername(UnknownUser)
  {
    assert !IsUsernameChar(UnknownUser[7]);
  }
}
