/**
 The auto-collector bot: it captures the game window, finds the markers of one
 template in the capture, and clicks them one by one, yielding to the human as
 soon as the pointer is seen to move on its own.
 */
module Bot {
  import opened Screen
  import opened Matcher
  import opened Platform
  import opened Dispatch

  /** The hits `find_template` yields: none without a template, otherwise the
      deduplicated centres of the candidates, offset by the window origin. */
  function HitsFor(template: Option<Template>, window: Option<Region>, cands: seq<Offset>): seq<Point>
    requires template.Some? ==> window.Some?
  {
    if template.None? then [] else Hits(template.value, window.value, cands)
  }

  /** The rectangle the screen grabber is asked for; `None` grabs the whole screen. */
  function GrabBox(window: Option<Region>): Option<Box>
  {
    match window
    case None => None
    case Some(r) => Some(Box(r.left, r.top, r.left + r.width, r.top + r.height))
  }

  class PVZAutoBot {
    /** The game window, once found. */
    var gameWindow: Option<Region>
    /** The two marker templates, as loaded at start-up (absent when loading failed). */
    const sunTemplate: Option<Template>
    const silverCoinTemplate: Option<Template>
    /** Where the pointer was when the latest `Collect` started. */
    var originalPos: Option<Point>
    /** Set by the debug hotkey; the next capture saves its screenshot and clears it. */
    var flagSaveScreenshot: bool
    /** How many debug screenshots have been saved. */
    var savedScreenshots: nat

    constructor (sun: Option<Template>, silverCoin: Option<Template>)
      ensures gameWindow == None && originalPos == None
      ensures sunTemplate == sun && silverCoinTemplate == silverCoin
      ensures !flagSaveScreenshot && savedScreenshots == 0
    {
      gameWindow := None;
      sunTemplate := sun;
      silverCoinTemplate := silverCoin;
      originalPos := None;
      flagSaveScreenshot := false;
      savedScreenshots := 0;
    }

    /** The hotkey listener's reaction to one debug key press. */
    method HotkeyPressed()
      modifies this`flagSaveScreenshot
      ensures flagSaveScreenshot
    {
      flagSaveScreenshot := true;
    }

    /** Records the window the locator found; `located` is its geometry after
        maximising, `None` when no window has the game's title or when the
        lookup, activation or maximising raised an error. */
    method FindGameWindow(located: Option<Region>) returns (found: bool)
      modifies this`gameWindow
      ensures found == located.Some?
      ensures gameWindow == if found then located else old(gameWindow)
    {
      if located.Some? {
        gameWindow := located;
        return true;
      }
      return false;
    }

    /** Grabs the window (or the whole screen before a window is known); a
        pending debug request saves this capture once and is cleared. */
    method CaptureGameScreen() returns (bbox: Option<Box>)
      modifies this`flagSaveScreenshot, this`savedScreenshots
      ensures bbox == GrabBox(gameWindow)
      ensures !flagSaveScreenshot
      ensures savedScreenshots == old(savedScreenshots) + if old(flagSaveScreenshot) then 1 else 0
    {
      if gameWindow.None? {
        bbox := None;
      } else {
        var w := gameWindow.value;
        bbox := Some(Box(w.left, w.top, w.left + w.width, w.top + w.height));
      }
      if flagSaveScreenshot {
        savedScreenshots := savedScreenshots + 1;
        flagSaveScreenshot := false;
      }
    }

    /** Finds the markers of `template` in a fresh capture. `candidates` are the
        offsets whose match score reached the threshold, in row-major order. */
    method FindTemplate(template: Option<Template>, candidates: seq<Offset>) returns (centers: seq<Point>)
      requires template.Some? ==> gameWindow.Some?
      modifies this`flagSaveScreenshot, this`savedScreenshots
      ensures centers == HitsFor(template, gameWindow, candidates)
      ensures |centers| <= |candidates|
      ensures template.None? ==> flagSaveScreenshot == old(flagSaveScreenshot)
                                 && savedScreenshots == old(savedScreenshots)
      ensures template.Some? ==> !flagSaveScreenshot
                                 && savedScreenshots == old(savedScreenshots) + if old(flagSaveScreenshot) then 1 else 0
    {
      if template.None? {
        return [];
      }
      var _ := CaptureGameScreen();
      var t := template.value;
      var win := gameWindow.value;
      ghost var cs := Centers(t, win, candidates);
      centers := [];
      var matches := [];
      var i := 0;
      while i < |candidates|
        invariant 0 <= i <= |candidates|
        invariant matches == centers
        invariant centers == Dedup(cs[..i])
      {
        var pt := candidates[i];
        var centerX := pt.x + t.w / 2 + win.left;
        var centerY := pt.y + t.h / 2 + win.top;
        var c := Point(centerX, centerY);
        assert c == cs[i];
        var tooClose := false;
        var j := 0;
        while j < |matches|
          invariant 0 <= j <= |matches|
          invariant !tooClose
          invariant forall k :: 0 <= k < j ==> SqDist(c, matches[k]) >= DedupRadius * DedupRadius
        {
          var dx := centerX - matches[j].x;
          var dy := centerY - matches[j].y;
          if dx * dx + dy * dy < DedupRadius * DedupRadius {
            tooClose := true;
            break;
          }
          j := j + 1;
        }
        assert tooClose == TooClose(c, matches);
        if !tooClose {
          matches := matches + [c];
          centers := centers + [c];
        }
        assert cs[..i + 1][..i] == cs[..i];
        i := i + 1;
      }
      assert cs[..i] == cs;
      HitsProperties(t, win, candidates);
    }

    /** One detection-and-click batch for `template`. Returns true only when
        there were hits and all of them were clicked; only then is the pointer
        moved back to where it started. */
    method Collect(template: Option<Template>, candidates: seq<Offset>, mouse: Mouse) returns (ok: bool)
      requires template.Some? ==> gameWindow.Some?
      modifies this`originalPos, this`flagSaveScreenshot, this`savedScreenshots, mouse`calls, mouse`trace
      ensures originalPos == Some(mouse.samples(old(mouse.calls)))
      ensures var hits := HitsFor(template, gameWindow, candidates);
              && ok == CollectSucceeds(hits, mouse.samples, old(mouse.calls))
              && mouse.trace == old(mouse.trace) + CollectTrace(hits, mouse.samples, old(mouse.calls))
              && mouse.calls == old(mouse.calls) + CallsUsed(hits, mouse.samples, old(mouse.calls))
      ensures template.None? ==> flagSaveScreenshot == old(flagSaveScreenshot)
                                 && savedScreenshots == old(savedScreenshots)
      ensures template.Some? ==> !flagSaveScreenshot
                                 && savedScreenshots == old(savedScreenshots) + if old(flagSaveScreenshot) then 1 else 0
    {
      ghost var o := mouse.calls;
      var original := mouse.Position();
      originalPos := Some(original);
      if template.None? {
        return false;
      }
      var centers := FindTemplate(template, candidates);
      if |centers| == 0 {
        return false;
      }
      ok := ClickBatch(centers, original, mouse);
    }

    /** The clicking part of `Collect`: before each click the pointer is read and
        compared with the latest reference (at first the original position, then
        the position read after the previous click); a move of more than
        `MouseMoveThreshold` abandons the batch without restoring the pointer. */
    method ClickBatch(centers: seq<Point>, original: Point, mouse: Mouse) returns (ok: bool)
      requires centers != []
      requires mouse.calls > 0 && mouse.samples(mouse.calls - 1) == original
      modifies mouse`calls, mouse`trace
      ensures var o := old(mouse.calls) - 1;
              && ok == CollectSucceeds(centers, mouse.samples, o)
              && mouse.trace == old(mouse.trace) + CollectTrace(centers, mouse.samples, o)
              && mouse.calls == o + CallsUsed(centers, mouse.samples, o)
    {
      ghost var o := mouse.calls - 1;
      var recentlyPos := original;
      var i := 0;
      while i < |centers|
        invariant 0 <= i <= |centers|
        invariant mouse.calls == o + 1 + 2 * i
        invariant recentlyPos == mouse.samples(o + 2 * i)
        invariant mouse.trace == old(mouse.trace) + Clicks(centers[..i])
        invariant i <= ClicksIssued(|centers|, mouse.samples, o)
      {
        var currentPos := mouse.Position();
        var distance := Abs(currentPos.x - recentlyPos.x) + Abs(currentPos.y - recentlyPos.y);
        if distance > MouseMoveThreshold {
          assert Interrupted(mouse.samples, o, i);
          return false;
        }
        assert !Interrupted(mouse.samples, o, i);
        mouse.Click(centers[i]);
        recentlyPos := mouse.Position();
        ClicksStep(centers, i);
        i := i + 1;
      }
      assert centers[..i] == centers;
      mouse.MoveTo(original);
      return true;
    }

    /** One pass of the main loop: collect suns, then silver coins. */
    method RunPass(sunCandidates: seq<Offset>, silverCoinCandidates: seq<Offset>, mouse: Mouse)
      requires gameWindow.Some?
      modifies this`originalPos, this`flagSaveScreenshot, this`savedScreenshots, mouse`calls, mouse`trace
      ensures var o := old(mouse.calls);
              var sunHits := HitsFor(sunTemplate, gameWindow, sunCandidates);
              var silverHits := HitsFor(silverCoinTemplate, gameWindow, silverCoinCandidates);
              var o' := o + CallsUsed(sunHits, mouse.samples, o);
              && mouse.trace == old(mouse.trace) + CollectTrace(sunHits, mouse.samples, o)
                                                 + CollectTrace(silverHits, mouse.samples, o')
              && mouse.calls == o' + CallsUsed(silverHits, mouse.samples, o')
              && originalPos == Some(mouse.samples(o'))
      ensures flagSaveScreenshot == (old(flagSaveScreenshot) && sunTemplate.None? && silverCoinTemplate.None?)
      ensures savedScreenshots == old(savedScreenshots)
                                  + if old(flagSaveScreenshot) && (sunTemplate.Some? || silverCoinTemplate.Some?) then 1 else 0
    {
      var _ := Collect(sunTemplate, sunCandidates, mouse);
      var _ := Collect(silverCoinTemplate, silverCoinCandidates, mouse);
    }
  }
}
