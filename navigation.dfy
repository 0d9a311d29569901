/**
 * The pages of the app, how `main` picks the page to show from `current_page`, and the
 * row of dots that marks the onboarding step.
 */
module Navigation {
  import opened Wrappers

  datatype Page = Splash | Onboarding | Welcome | Login | Signup | NamePrompt | MainApp

  /** The value of `current_page` that stands for each page. */
  function PageName(p: Page): string {
    match p
    case Splash => "splash"
    case Onboarding => "onboarding"
    case Welcome => "welcome"
    case Login => "login"
    case Signup => "signup"
    case NamePrompt => "name_prompt"
    case MainApp => "app"
  }

  /** `main`: the page a value of `current_page` shows; any unknown value shows the splash page. */
  function Route(current: string): Page {
    if current == "onboarding" then Onboarding
    else if current == "welcome" then Welcome
    else if current == "login" then Login
    else if current == "signup" then Signup
    else if current == "name_prompt" then NamePrompt
    else if current == "app" then MainApp
    else Splash
  }

  /** Every page is reached by its own name, and only by it or, for the splash page, by any unknown name. */
  lemma RouteByName(p: Page, current: string)
    ensures Route(PageName(p)) == p
    ensures p != Splash ==> (Route(current) == p <==> current == PageName(p))
    ensures (forall q :: current != PageName(q)) ==> Route(current) == Splash
  {
    assert current != PageName(Onboarding) && current != PageName(Welcome) && current != PageName(Login)
      && current != PageName(Signup) && current != PageName(NamePrompt) && current != PageName(MainApp)
      ==> Route(current) == Splash;
  }

  const DotsOpen := "<div class=\"dots-container\">"
  const DotsClose := "</div>"
  const ActiveDot := "<div class=\"dot active\"></div>"
  /** An inactive dot keeps the space after "dot", where the empty class name goes. */
  const InactiveDot := "<div class=\"dot \"></div>"

  function DotHtml(active: bool): string {
    if active then ActiveDot else InactiveDot
  }

  /** Which dots of `range(total)` are active: the one at `current`, if it is in range. */
  function DotFlags(current: int, total: int): (flags: seq<bool>)
    ensures |flags| == (if total < 0 then 0 else total)
    ensures forall i :: 0 <= i < |flags| ==> (flags[i] <==> i == current)
  {
    if total <= 0 then [] else seq(total, i => i == current)
  }

  /** The dots one after another. */
  function RenderDots(flags: seq<bool>): string {
    if flags == [] then "" else RenderDots(flags[..|flags| - 1]) + DotHtml(flags[|flags| - 1])
  }

  /** A dot as the source spells it: "dot", a space, then "active" or nothing. */
  lemma DotSpelled(active: bool)
    ensures DotHtml(active) == "<div class=\"dot " + (if active then "active" else "") + "\"></div>"
  {
  }

  /** `dots_indicator(current, total)`: the dots built one by one inside the container. */
  method DotsIndicator(current: int, total: int) returns (html: string)
    ensures html == DotsOpen + RenderDots(DotFlags(current, total)) + DotsClose
  {
    var flags := DotFlags(current, total);
    var dots := "";
    var i := 0;
    while i < total
      invariant 0 <= i <= |flags|
      invariant dots == RenderDots(flags[..i])
    {
      assert flags[..i + 1][..i] == flags[..i];
      var active := if i == current then "active" else "";
      var dot := "<div class=\"dot " + active + "\"></div>";
      DotSpelled(i == current);
      dots := dots + dot;
      i := i + 1;
    }
    assert flags[..i] == flags;
    html := DotsOpen + dots + DotsClose;
  }

  /** Reads a row of dots back into the active flags, from the last dot to the first. */
  function ParseDots(s: string): Option<seq<bool>>
    decreases |s|
  {
    if s == [] then Some([])
    else if |s| >= |ActiveDot| && s[|s| - |ActiveDot|..] == ActiveDot then
      match ParseDots(s[..|s| - |ActiveDot|])
      case None => None
      case Some(flags) => Some(flags + [true])
    else if |s| >= |InactiveDot| && s[|s| - |InactiveDot|..] == InactiveDot then
      match ParseDots(s[..|s| - |InactiveDot|])
      case None => None
      case Some(flags) => Some(flags + [false])
    else None
  }

  /** A row ending in an inactive dot does not end in an active one, so reading the dots back is unambiguous. */
  lemma InactiveIsNotActive(s: string)
    requires |s| >= |InactiveDot| && s[|s| - |InactiveDot|..] == InactiveDot
    ensures !(|s| >= |ActiveDot| && s[|s| - |ActiveDot|..] == ActiveDot)
  {
    var tail := s[|s| - |InactiveDot|..];
    assert s[|s| - 9] == tail[|tail| - 9] == ' ';
    if |s| >= |ActiveDot| {
      var longer := s[|s| - |ActiveDot|..];
      assert longer[|longer| - 9] == s[|s| - 9];
      assert ActiveDot[|ActiveDot| - 9] == 'e';
    }
  }

  /** Reading back a row with one more dot at its end gives one more flag. */
  lemma ParseLastDot(x: string, active: bool)
    ensures ParseDots(x + DotHtml(active)) == match ParseDots(x)
      case None => None
      case Some(flags) => Some(flags + [active])
  {
    if active {
      ParseLastActive(x);
    } else {
      ParseLastInactive(x);
    }
  }

  lemma ParseLastActive(x: string)
    ensures ParseDots(x + ActiveDot) == match ParseDots(x)
      case None => None
      case Some(flags) => Some(flags + [true])
  {
    var s := x + ActiveDot;
    assert s[|s| - |ActiveDot|..] == ActiveDot;
    assert s[..|s| - |ActiveDot|] == x;
  }

  lemma ParseLastInactive(x: string)
    ensures ParseDots(x + InactiveDot) == match ParseDots(x)
      case None => None
      case Some(flags) => Some(flags + [false])
  {
    var s := x + InactiveDot;
    assert s[|s| - |InactiveDot|..] == InactiveDot;
    assert s[..|s| - |InactiveDot|] == x;
    InactiveIsNotActive(s);
  }

  /** The rendered dots read back as the flags they were rendered from. */
  lemma {:induction false} ParseRenderDots(flags: seq<bool>)
    ensures ParseDots(RenderDots(flags)) == Some(flags)
  {
    if flags != [] {
      var init, last := flags[..|flags| - 1], flags[|flags| - 1];
      assert init + [last] == flags;
      assert RenderDots(flags) == RenderDots(init) + DotHtml(last);
      ParseRenderDots(init);
      ParseLastDot(RenderDots(init), last);
    }
  }

  function CountActive(flags: seq<bool>): nat {
    if flags == [] then 0 else CountActive(flags[..|flags| - 1]) + (if flags[|flags| - 1] then 1 else 0)
  }

  /** Exactly one dot is active when `current` is one of the `total` steps, and none otherwise. */
  lemma {:induction false} OneActiveDot(current: int, total: int)
    ensures CountActive(DotFlags(current, total)) == if 0 <= current < total then 1 else 0
  {
    if total > 0 {
      var flags := DotFlags(current, total);
      assert flags[..total - 1] == DotFlags(current, total - 1);
      OneActiveDot(current, total - 1);
    }
  }
}
