/**
 * The landing page's script (script.js): the colour theme switch, and the checks made on the
 * session and topic names a user types before the page navigates or sends a request.
 */
module Frontend {
  import opened Wrappers
  import opened Text

  // ---------------------------------------------------------------- session names

  /**
   * Every maximal run of characters satisfying `sp` replaced by a single `-`: with IsJsSpace,
   * `s.replace(/\s+/g, "-")`.
   */
  function ReplaceRuns(s: string, sp: char -> bool): string
    decreases |s|
  {
    if |s| == 0 then []
    else if sp(s[0]) then "-" + ReplaceRuns(SkipSpace(s, sp), sp)
    else [s[0]] + ReplaceRuns(s[1..], sp)
  }

  /** `value.trim().replace(/\s+/g, "-")`, the session name `joinSession` and `createSession` use. */
  function SessionName(input: string): string {
    ReplaceRuns(Strip(input, IsJsSpace), IsJsSpace)
  }

  /** A whitespace-free prefix passes through the replacement unchanged. */
  lemma {:induction false} ReplaceRunsOfWordThen(w: string, x: string, sp: char -> bool)
    requires NoneIn(w, sp)
    ensures ReplaceRuns(w + x, sp) == w + ReplaceRuns(x, sp)
    decreases |w|
  {
    if w == [] {
      assert w + x == x;
    } else {
      assert (w + x)[1..] == w[1..] + x;
      ReplaceRunsOfWordThen(w[1..], x, sp);
      assert [w[0]] + (w[1..] + ReplaceRuns(x, sp)) == w + ReplaceRuns(x, sp);
    }
  }

  /** The replacement leaves no separator when the dash is not one. */
  lemma {:induction false} ReplaceRunsHasNoSpace(s: string, sp: char -> bool)
    requires !sp('-')
    ensures NoneIn(ReplaceRuns(s, sp), sp)
    decreases |s|
  {
    if |s| > 0 {
      if sp(s[0]) {
        ReplaceRunsHasNoSpace(SkipSpace(s, sp), sp);
      } else {
        ReplaceRunsHasNoSpace(s[1..], sp);
      }
    }
  }

  /** A run of whitespace before a non-space character becomes a single dash. */
  lemma ReplaceRunsOfSpacesThen(pre: string, u: string, sp: char -> bool)
    requires pre != [] && forall i :: 0 <= i < |pre| ==> sp(pre[i])
    requires u != [] && !sp(u[0])
    ensures ReplaceRuns(pre + u, sp) == "-" + ReplaceRuns(u, sp)
  {
    assert (pre + u)[0] == pre[0];
    SkipSpaceOfSpaces(pre, u, sp);
    assert SkipSpace(u, sp) == u;
  }

  /** On a single word both sides are the word itself. */
  lemma ReplaceRunsOfWord(t: string, sp: char -> bool)
    requires NoneIn(t, sp)
    ensures ReplaceRuns(t, sp) == Join("-", SplitOn(t, sp))
  {
    SplitOfWord(t, sp);
    assert t + [] == t;
    ReplaceRunsOfWordThen(t, [], sp);
  }

  /**
   * A word, a run of separators and text that starts with a non-separator: when the two sides
   * agree on the text, they agree on the whole.
   */
  lemma ReplaceRunsOfWordSpacesThen(w: string, pre: string, u: string, sp: char -> bool)
    requires IsWord(w, sp)
    requires pre != [] && forall i :: 0 <= i < |pre| ==> sp(pre[i])
    requires u != [] && !sp(u[0])
    requires ReplaceRuns(u, sp) == Join("-", SplitOn(u, sp))
    ensures ReplaceRuns(w + (pre + u), sp) == Join("-", SplitOn(w + (pre + u), sp))
  {
    var ws := SplitOn(u, sp);
    var j := Join("-", ws);
    assert (pre + u)[0] == pre[0];
    ReplaceRunsOfWordThen(w, pre + u, sp);
    ReplaceRunsOfSpacesThen(pre, u, sp);
    assert ReplaceRuns(w + (pre + u), sp) == w + ("-" + j);
    SplitOfWordThen(w, pre + u, sp);
    SplitOfSpacesThen(pre, u, sp);
    assert SplitOn(w + (pre + u), sp) == [w] + ws;
    assert SkipSpace(u, sp) == u;
    JoinCons("-", w, ws);
    ConcatAssoc(w, "-", j);
  }

  /**
   * Text that starts and ends with a non-separator and holds a separator is its first word, a
   * non-empty run of separators, and shorter text that starts and ends with a non-separator.
   */
  lemma FirstWordSplit(t: string, sp: char -> bool) returns (w: string, pre: string, u: string)
    requires t != [] && !sp(t[0]) && !sp(t[|t| - 1]) && WordLen(t, sp) < |t|
    ensures IsWord(w, sp) && t == w + (pre + u)
    ensures pre != [] && forall i :: 0 <= i < |pre| ==> sp(pre[i])
    ensures u != [] && |u| < |t| && !sp(u[0]) && !sp(u[|u| - 1])
  {
    var n := WordLen(t, sp);
    w := t[..n];
    var rest := t[n..];
    assert rest[0] == t[n] && rest[|rest| - 1] == t[|t| - 1];
    SpacesThenText(rest, sp);
    u := SkipSpace(rest, sp);
    pre := rest[..|rest| - |u|];
    SkipSpaceSplits(rest, sp);
    PrefixOfSpaces(rest, |rest| - |u|, sp);
    SliceSplit(t, n);
  }

  /**
   * On text with no whitespace at either end, the replacement is the whitespace-separated words
   * joined by dashes.
   */
  lemma {:induction false} ReplaceRunsAsJoin(t: string, sp: char -> bool)
    requires t == [] || (!sp(t[0]) && !sp(t[|t| - 1]))
    ensures ReplaceRuns(t, sp) == Join("-", SplitOn(t, sp))
    decreases |t|
  {
    if t != [] {
      var n := WordLen(t, sp);
      if n == |t| {
        assert t[..n] == t;
        ReplaceRunsOfWord(t, sp);
      } else {
        var w, pre, u := FirstWordSplit(t, sp);
        ReplaceRunsAsJoin(u, sp);
        ReplaceRunsOfWordSpacesThen(w, pre, u, sp);
      }
    }
  }

  /** Stripping and then replacing the runs joins the words with dashes. */
  lemma StripThenReplace(input: string, sp: char -> bool)
    ensures ReplaceRuns(Strip(input, sp), sp) == Join("-", SplitOn(input, sp))
  {
    var t := Strip(input, sp);
    var u := SkipSpace(input, sp);
    assert t == TrimEnd(u, sp);
    SplitOfStrip(input, sp);
    if t != [] {
      assert t[0] == u[0];
    }
    ReplaceRunsAsJoin(t, sp);
  }

  /**
   * The session name is the input's whitespace-separated words joined by single dashes: an
   * independent description of trimming and then replacing every whitespace run.
   */
  lemma SessionNameAsJoin(input: string)
    ensures SessionName(input) == Join("-", SplitOn(input, IsJsSpace))
  {
    StripThenReplace(input, IsJsSpace);
  }

  /** A session name contains no whitespace. */
  lemma SessionNameHasNoSpace(input: string)
    ensures NoneIn(SessionName(input), IsJsSpace)
  {
    assert !IsJsSpace('-');
    ReplaceRunsHasNoSpace(Strip(input, IsJsSpace), IsJsSpace);
  }

  /** Normalising a session name again changes nothing. */
  lemma SessionNameIdempotent(input: string)
    ensures SessionName(SessionName(input)) == SessionName(input)
  {
    var n := SessionName(input);
    SessionNameHasNoSpace(input);
    SessionNameAsJoin(n);
    SplitOfWord(n, IsJsSpace);
  }

  /** The words joined with dashes are empty exactly when every character is a separator. */
  lemma JoinedEmpty(input: string, sp: char -> bool)
    ensures Join("-", SplitOn(input, sp)) == [] <==> AllIn(input, sp)
  {
    var ws := SplitOn(input, sp);
    if AllIn(input, sp) {
      assert input + [] == input;
      SplitOfSpacesThen(input, [], sp);
    } else {
      SkippedAreSpaces(input, sp);
      assert SkipSpace(input, sp) != [];
      assert ws != [] && ws[0] != [];
      JoinStartsWithFirst("-", ws);
    }
  }

  /** The session name is empty exactly when the input is empty or all whitespace. */
  lemma SessionNameEmpty(input: string)
    ensures SessionName(input) == [] <==> AllIn(input, IsJsSpace)
  {
    SessionNameAsJoin(input);
    JoinedEmpty(input, IsJsSpace);
  }

  /** `value.trim()`, the topic name `createTopic` uses: inner whitespace is kept. */
  function TopicName(input: string): string {
    Strip(input, IsJsSpace)
  }

  /** Where the topic name starts in the input: the number of leading whitespace characters. */
  function TopicStart(input: string): nat {
    |input| - |SkipSpace(input, IsJsSpace)|
  }

  /**
   * The topic name is the input without whitespace at either end: it is the slice of the input
   * that starts at TopicStart, everything before and after that slice is whitespace, and the
   * name neither starts nor ends with whitespace.
   */
  lemma TopicNameTrims(input: string)
    ensures var t := TopicName(input);
            var i := TopicStart(input);
            && i + |t| <= |input| && input[i..i + |t|] == t
            && AllIn(input[..i], IsJsSpace) && AllIn(input[i + |t|..], IsJsSpace)
            && EndsClear(t, IsJsSpace)
  {
    var t, i := TopicName(input), TopicStart(input);
    StripTrims(input, IsJsSpace);
    assert t == Strip(input, IsJsSpace) && i == |input| - |SkipSpace(input, IsJsSpace)|;
  }

  // ---------------------------------------------------------------- theme

  /** `currentTheme === 'dark' ? 'light' : 'dark'` */
  function NextTheme(current: Option<string>): string {
    if current == Some("dark") then "light" else "dark"
  }

  /** The icon and the button text `updateThemeIcon` shows for a theme. */
  function ThemeIcon(theme: string): (string, string) {
    if theme == "dark" then ("\U{2600}\U{FE0F}", "Light") else ("\U{1F319}", "Dark")
  }

  /** `localStorage.getItem('theme') || 'light'`: a missing or empty saved value gives 'light'. */
  function InitialTheme(saved: Option<string>): string {
    if saved.Some? && saved.value != "" then saved.value else "light"
  }

  /**
   * Toggling moves between the two themes: it always yields 'light' or 'dark', switches each to
   * the other, and starts from 'dark' when no theme is set.
   */
  lemma NextThemeSwitches(current: Option<string>)
    ensures NextTheme(current) in {"light", "dark"}
    ensures current == Some("light") || current == Some("dark") ==> Some(NextTheme(current)) != current
    ensures current == Some("light") || current == Some("dark") ==>
              NextTheme(Some(NextTheme(current))) == current.value
    ensures current.None? ==> NextTheme(current) == "dark"
  {
  }

  /** The button text names the theme the next toggle switches to. */
  lemma ThemeIconNamesNext(theme: string)
    ensures ThemeIcon(theme).1 == Capitalize(NextTheme(Some(theme)))
  {
    assert Capitalize("light") == "Light" by {
      assert Lower("ight") == "ight";
    }
    assert Capitalize("dark") == "Dark" by {
      assert Lower("ark") == "ark";
    }
  }

  /** With nothing saved the page starts light, and a theme saved by a toggle is restored. */
  lemma InitialThemeRestores(current: Option<string>)
    ensures InitialTheme(None) == "light"
    ensures InitialTheme(Some(NextTheme(current))) == NextTheme(current)
  {
  }

  // ---------------------------------------------------------------- the page

  /** A request the page sends to the server. */
  datatype Post =
    | CreateSessionPost(name: string)
    | CreateTopicPost(sessionId: string, topicName: string)

  /** What the script reads and changes on the page. */
  class Page {
    /** The `data-theme` attribute of the document element. */
    var theme: Option<string>
    /** The `theme` entry of local storage. */
    var saved: Option<string>
    /** Whether both the `themeIcon` and the `themeText` elements exist. */
    var hasIcon: bool
    var icon: string
    var buttonText: string
    /** `window.location.href` */
    var location: string
    /** The last message passed to `showMessage`. */
    var message: Option<string>
    /** The requests sent, oldest first. */
    var posts: seq<Post>

    constructor(saved: Option<string>, hasIcon: bool, location: string)
      ensures this.saved == saved && this.hasIcon == hasIcon && this.location == location
      ensures theme == None && icon == "" && buttonText == "" && message == None && posts == []
    {
      this.saved := saved;
      this.hasIcon := hasIcon;
      this.location := location;
      theme := None;
      icon, buttonText := "", "";
      message := None;
      posts := [];
    }

    /** `updateThemeIcon(theme)`: sets the icon and text when both elements exist. */
    method UpdateThemeIcon(t: string)
      modifies this
      ensures hasIcon ==> (icon, buttonText) == ThemeIcon(t)
      ensures !hasIcon ==> icon == old(icon) && buttonText == old(buttonText)
      ensures theme == old(theme) && saved == old(saved) && hasIcon == old(hasIcon)
      ensures location == old(location) && message == old(message) && posts == old(posts)
    {
      if hasIcon {
        icon, buttonText := ThemeIcon(t).0, ThemeIcon(t).1;
      }
    }

    /** The `DOMContentLoaded` handler: applies the saved theme, or 'light'. */
    method Load()
      modifies this
      ensures theme == Some(InitialTheme(old(saved)))
      ensures hasIcon ==> (icon, buttonText) == ThemeIcon(InitialTheme(old(saved)))
      ensures !hasIcon ==> icon == old(icon) && buttonText == old(buttonText)
      ensures saved == old(saved) && hasIcon == old(hasIcon)
      ensures location == old(location) && message == old(message) && posts == old(posts)
    {
      var t := InitialTheme(saved);
      theme := Some(t);
      UpdateThemeIcon(t);
    }

    /** `toggleTheme()`: the attribute and the saved value both become the next theme. */
    method ToggleTheme()
      modifies this
      ensures theme == Some(NextTheme(old(theme))) && saved == theme
      ensures hasIcon ==> (icon, buttonText) == ThemeIcon(NextTheme(old(theme)))
      ensures !hasIcon ==> icon == old(icon) && buttonText == old(buttonText)
      ensures hasIcon == old(hasIcon)
      ensures location == old(location) && message == old(message) && posts == old(posts)
    {
      var t := NextTheme(theme);
      theme := Some(t);
      saved := Some(t);
      UpdateThemeIcon(t);
    }

    /**
     * `joinSession()`: an empty session name shows an error and stays; otherwise the page goes
     * to the session's page.
     */
    method JoinSession(input: string)
      modifies this
      ensures SessionName(input) == [] ==>
                message == Some("Please enter a session name") && location == old(location)
      ensures SessionName(input) != [] ==>
                location == "/sessions/" + SessionName(input) && message == old(message)
      ensures posts == old(posts) && theme == old(theme) && saved == old(saved)
      ensures hasIcon == old(hasIcon) && icon == old(icon) && buttonText == old(buttonText)
    {
      var name := SessionName(input);
      if |name| == 0 {
        message := Some("Please enter a session name");
      } else {
        location := "/sessions/" + name;
      }
    }

    /**
     * `createSession()`: an empty session name shows an error and sends nothing; otherwise the
     * name is posted to `/createsession`.
     */
    method CreateSession(input: string)
      modifies this
      ensures SessionName(input) == [] ==>
                message == Some("Please enter a session name") && posts == old(posts)
      ensures SessionName(input) != [] ==>
                posts == old(posts) + [CreateSessionPost(SessionName(input))] && message == old(message)
      ensures location == old(location) && theme == old(theme) && saved == old(saved)
      ensures hasIcon == old(hasIcon) && icon == old(icon) && buttonText == old(buttonText)
    {
      var name := SessionName(input);
      if name == [] {
        message := Some("Please enter a session name");
        return;
      }
      posts := posts + [CreateSessionPost(name)];
    }

    /**
     * `createTopic(sessionId)`: an empty trimmed name shows an error and sends nothing;
     * otherwise the session and the trimmed name are posted to `/createTopic`.
     */
    method CreateTopic(sessionId: string, input: string)
      modifies this
      ensures TopicName(input) == [] ==>
                message == Some("Please enter a topic name") && posts == old(posts)
      ensures TopicName(input) != [] ==>
                posts == old(posts) + [CreateTopicPost(sessionId, TopicName(input))] && message == old(message)
      ensures location == old(location) && theme == old(theme) && saved == old(saved)
      ensures hasIcon == old(hasIcon) && icon == old(icon) && buttonText == old(buttonText)
    {
      var topic := TopicName(input);
      if |topic| == 0 {
        message := Some("Please enter a topic name");
      } else {
        posts := posts + [CreateTopicPost(sessionId, topic)];
      }
    }
  }
}
