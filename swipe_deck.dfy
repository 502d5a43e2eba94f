/**
 * The swipe deck's view model: the options of the current session, the ones still to be
 * swiped, and the match state. The options service, the sleep before reading its options
 * and the like request run outside the model: their outcomes are the arguments of the
 * `Complete…` methods, which stand for the code that runs when each task resumes.
 */
module SwipeDeck {
  import opened Wrappers
  import opened Models

  datatype SwipeDirection = Left | Right

  /** What `likeOption` on the session service reports. */
  datatype LikeResult = LikeResult(matchFound: bool, matchedOptionId: Option<Uuid>)

  /** What the options-loading task ends with: the service's options, or the error thrown. */
  datatype LoadOutcome = Loaded(options: seq<OptionRecord>) | LoadFailed(description: string)

  // ---------------------------------------------------------------- subsequences

  /** `a` is `b` with some elements left out, the rest in their order. */
  ghost predicate IsSubsequence<T>(a: seq<T>, b: seq<T>)
    decreases |b|
  {
    if b == [] then a == []
    else
      || IsSubsequence(a, b[..|b| - 1])
      || (a != [] && a[|a| - 1] == b[|b| - 1] && IsSubsequence(a[..|a| - 1], b[..|b| - 1]))
  }

  lemma {:induction false} SubsequenceReflexive<T>(a: seq<T>)
    ensures IsSubsequence(a, a)
    decreases |a|
  {
    if a != [] {
      SubsequenceReflexive(a[..|a| - 1]);
    }
  }

  lemma {:induction false} SubsequenceTransitive<T>(a: seq<T>, b: seq<T>, c: seq<T>)
    requires IsSubsequence(a, b) && IsSubsequence(b, c)
    ensures IsSubsequence(a, c)
    decreases |c|
  {
    if c != [] {
      var c' := c[..|c| - 1];
      if IsSubsequence(b, c') {
        SubsequenceTransitive(a, b, c');
      } else {
        var b' := b[..|b| - 1];
        if IsSubsequence(a, b') {
          SubsequenceTransitive(a, b', c');
        } else {
          SubsequenceTransitive(a[..|a| - 1], b', c');
        }
      }
    }
  }

  /** A subsequence is no longer than the sequence and holds only its elements. */
  lemma {:induction false} SubsequenceBounds<T>(a: seq<T>, b: seq<T>)
    requires IsSubsequence(a, b)
    ensures |a| <= |b|
    ensures forall x :: x in a ==> x in b
    decreases |b|
  {
    if b != [] {
      var b' := b[..|b| - 1];
      if IsSubsequence(a, b') {
        SubsequenceBounds(a, b');
      } else {
        SubsequenceBounds(a[..|a| - 1], b');
        assert a == a[..|a| - 1] + [a[|a| - 1]];
        assert b == b' + [b[|b| - 1]];
      }
    }
  }

  // ---------------------------------------------------------------- removeAll

  /** `removeAll { $0.id == id }`: the options whose id differs, in their order. */
  function WithoutId(s: seq<OptionRecord>, id: Uuid): (r: seq<OptionRecord>)
    ensures forall x :: x in r ==> x in s && x.id != id
    ensures forall x :: x in s && x.id != id ==> x in r
    ensures |r| <= |s|
  {
    if s == [] then []
    else
      var last := s[|s| - 1];
      assert s == s[..|s| - 1] + [last];
      WithoutId(s[..|s| - 1], id) + (if last.id == id then [] else [last])
  }

  /** Removal keeps the remaining options in their order. */
  lemma {:induction false} WithoutIdIsSubsequence(s: seq<OptionRecord>, id: Uuid)
    ensures IsSubsequence(WithoutId(s, id), s)
    decreases |s|
  {
    if s != [] {
      var s' := s[..|s| - 1];
      var r := WithoutId(s, id);
      WithoutIdIsSubsequence(s', id);
      if s[|s| - 1].id == id {
        assert r == WithoutId(s', id);
      } else {
        assert r[..|r| - 1] == WithoutId(s', id);
      }
    }
  }

  /** Removal changes nothing exactly when no option has the id. */
  lemma WithoutIdUnchanged(s: seq<OptionRecord>, id: Uuid)
    ensures WithoutId(s, id) == s <==> forall x :: x in s ==> x.id != id
  {
    if forall x :: x in s ==> x.id != id {
      WithoutIdKeepsAll(s, id);
    } else {
      var x :| x in s && x.id == id;
      assert x !in WithoutId(s, id);
    }
  }

  lemma {:induction false} WithoutIdKeepsAll(s: seq<OptionRecord>, id: Uuid)
    requires forall x :: x in s ==> x.id != id
    ensures WithoutId(s, id) == s
    decreases |s|
  {
    if s != [] {
      var s' := s[..|s| - 1];
      assert s == s' + [s[|s| - 1]];
      WithoutIdKeepsAll(s', id);
    }
  }

  // ---------------------------------------------------------------- the view model

  class SwipeDeckViewModel<P, C> {
    var currentOptions: seq<OptionRecord>
    var isLoading: bool
    var matchFound: bool
    var matchedOptionId: Option<Uuid>
    var showingError: bool
    var errorMessage: Option<string>
    var session: Option<Session<P, C>>
    var allOptions: seq<OptionRecord>

    /** The options still to swipe are the session's options with some swiped away. */
    ghost predicate Valid()
      reads this
    {
      IsSubsequence(currentOptions, allOptions)
    }

    constructor ()
      ensures Valid()
      ensures currentOptions == [] && allOptions == [] && session == None
      ensures !isLoading && !matchFound && matchedOptionId == None && !showingError && errorMessage == None
    {
      currentOptions := [];
      isLoading := false;
      matchFound := false;
      matchedOptionId := None;
      showingError := false;
      errorMessage := None;
      session := None;
      allOptions := [];
    }

    /** `totalOptions`. */
    function TotalOptions(): int
      reads this
    {
      |allOptions|
    }

    /** `optionsRemaining`: never more than `totalOptions`. */
    function OptionsRemaining(): (n: int)
      reads this
      requires Valid()
      ensures 0 <= n <= TotalOptions()
    {
      SubsequenceBounds(currentOptions, allOptions);
      |currentOptions|
    }

    /** `setSession` and the synchronous part of `loadOptions`: the session is set and loading starts. */
    method SetSession(s: Session<P, C>)
      requires Valid()
      modifies this
      ensures Valid()
      ensures session == Some(s) && isLoading
      ensures currentOptions == old(currentOptions) && allOptions == old(allOptions)
      ensures matchFound == old(matchFound) && matchedOptionId == old(matchedOptionId)
      ensures showingError == old(showingError) && errorMessage == old(errorMessage)
    {
      session := Some(s);
      isLoading := true;
    }

    /** The body of the loading task once the service has answered or thrown. */
    method CompleteLoad(outcome: LoadOutcome)
      requires Valid()
      modifies this
      ensures Valid()
      ensures !isLoading
      ensures outcome.Loaded? ==> allOptions == outcome.options && currentOptions == outcome.options
      ensures outcome.Loaded? ==> showingError == old(showingError) && errorMessage == old(errorMessage)
      ensures outcome.LoadFailed? ==> allOptions == old(allOptions) && currentOptions == old(currentOptions)
      ensures outcome.LoadFailed? ==> showingError && errorMessage == Some("Failed to load options: " + outcome.description)
      ensures session == old(session) && matchFound == old(matchFound) && matchedOptionId == old(matchedOptionId)
    {
      match outcome
      case Loaded(options) =>
        allOptions := options;
        currentOptions := allOptions;
        SubsequenceReflexive(options);
        isLoading := false;
      case LoadFailed(description) =>
        errorMessage := Some("Failed to load options: " + description);
        showingError := true;
        isLoading := false;
    }

    /**
     * `handleSwipe`: without a session nothing happens; otherwise the swiped option leaves
     * the deck, and a right swipe returns the option whose like request starts.
     */
    method HandleSwipe(option: OptionRecord, direction: SwipeDirection) returns (like: Option<OptionRecord>)
      requires Valid()
      modifies this`currentOptions
      ensures Valid()
      ensures old(session).None? ==> currentOptions == old(currentOptions) && like == None
      ensures old(session).Some? ==> currentOptions == WithoutId(old(currentOptions), option.id)
      ensures like.Some? <==> old(session).Some? && direction == Right
      ensures like.Some? ==> like.value == option
    {
      if session.None? {
        return None;
      }
      WithoutIdIsSubsequence(currentOptions, option.id);
      SubsequenceTransitive(WithoutId(currentOptions, option.id), currentOptions, allOptions);
      currentOptions := WithoutId(currentOptions, option.id);
      like := if direction == Right then Some(option) else None;
    }

    /** The rest of `likeOption` once the service has answered: a match is recorded, never undone. */
    method CompleteLike(result: LikeResult)
      requires Valid()
      modifies this`matchFound, this`matchedOptionId
      ensures Valid()
      ensures matchFound == (old(matchFound) || result.matchFound)
      ensures matchedOptionId == if result.matchFound then result.matchedOptionId else old(matchedOptionId)
    {
      if result.matchFound {
        matchFound := true;
        matchedOptionId := result.matchedOptionId;
      }
    }
  }
}
