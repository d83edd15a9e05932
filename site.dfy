/** Model of the three pieces of state in the site script (script.js): the Konami
    code key window, the colourful mouse trail and the lie detector's re-entrancy
    guard. Each is a small object updated by an event handler; the DOM work they
    do (dots, notifications, sounds) is left out. */
module SiteEffects {

  datatype Option<T> = None | Some(value: T)

  function Min(a: int, b: int): int { if a < b then a else b }

  /** `buf.push(x)` followed by one `shift()` when the buffer is now longer than
      `cap`: a sliding window of recent items. */
  function Slide<T>(buf: seq<T>, x: T, cap: nat): (r: seq<T>)
    ensures |buf| <= cap ==> |r| == Min(|buf| + 1, cap)
    ensures |r| <= |buf| + 1 && r == (buf + [x])[|buf| + 1 - |r|..]
    ensures cap > 0 ==> |r| > 0 && r[|r| - 1] == x
  {
    var pushed := buf + [x];
    if |pushed| > cap then pushed[1..] else pushed
  }

  /** The last `n` items of `s` (all of them when there are fewer). */
  function LastN<T>(s: seq<T>, n: nat): (r: seq<T>)
    ensures |r| == Min(|s|, n)
    ensures r == s[|s| - |r|..]
  {
    if |s| <= n then s else s[|s| - n..]
  }

  /** The window always holds the most recent items: sliding the window of a
      history over one more item gives the window of the longer history. */
  lemma SlideKeepsLast<T>(history: seq<T>, x: T, n: nat)
    requires n > 0
    ensures Slide(LastN(history, n), x, n) == LastN(history + [x], n)
  {
    var w := LastN(history, n);
    var h := history + [x];
    if |history| >= n {
      assert w + [x] == h[|h| - n - 1..];
      assert (w + [x])[1..] == h[|h| - n..];
    } else {
      assert w + [x] == h;
    }
  }

  /** `Array.prototype.join(',')` on key codes. */
  function Join(codes: seq<string>): (r: string)
    ensures codes == [] ==> r == ""
    ensures codes != [] ==> |codes[0]| <= |r| && r[..|codes[0]|] == codes[0]
    ensures |codes| > 1 ==> |codes[0]| < |r| && r[|codes[0]|] == ','
  {
    if |codes| == 0 then ""
    else if |codes| == 1 then codes[0]
    else codes[0] + "," + Join(codes[1..])
  }

  predicate CommaFree(s: string)
  {
    forall i :: 0 <= i < |s| ==> s[i] != ','
  }

  predicate AllCommaFree(codes: seq<string>)
  {
    forall k :: 0 <= k < |codes| ==> CommaFree(codes[k])
  }

  /** The position of the first comma, or `|s|` when there is none. */
  function FirstComma(s: string): (k: nat)
    ensures k <= |s|
    ensures k < |s| ==> s[k] == ','
    ensures forall i :: 0 <= i < k ==> s[i] != ','
  {
    if |s| == 0 then 0
    else if s[0] == ',' then 0
    else 1 + FirstComma(s[1..])
  }

  /** `split(',')`, the inverse of Join on comma-free codes. */
  function Split(s: string): (r: seq<string>)
    ensures |r| > 0
    decreases |s|
  {
    var k := FirstComma(s);
    if k == |s| then [s] else [s[..k]] + Split(s[k + 1..])
  }

  /** Joining comma-free codes and splitting again gives the codes back. */
  lemma {:induction false} SplitJoin(codes: seq<string>)
    requires |codes| > 0 && AllCommaFree(codes)
    ensures Split(Join(codes)) == codes
    decreases |codes|
  {
    var first := codes[0];
    assert CommaFree(first);
    if |codes| == 1 {
      assert FirstComma(first) == |first|;
    } else {
      var rest := Join(codes[1..]);
      var s := first + "," + rest;
      assert s[|first|] == ',';
      assert forall i :: 0 <= i < |first| ==> s[i] == first[i];
      assert FirstComma(s) == |first|;
      assert s[..|first|] == first;
      assert s[|first| + 1..] == rest;
      assert AllCommaFree(codes[1..]) by {
        forall k | 0 <= k < |codes[1..]| ensures CommaFree(codes[1..][k]) {
          assert codes[1..][k] == codes[k + 1];
        }
      }
      SplitJoin(codes[1..]);
    }
  }

  /** The key codes of the Konami sequence. */
  function KonamiSequence(): seq<string>
  {
    ["ArrowUp", "ArrowUp", "ArrowDown", "ArrowDown",
     "ArrowLeft", "ArrowRight", "ArrowLeft", "ArrowRight",
     "KeyB", "KeyA"]
  }

  const KonamiLength: nat := 10
  const MaxTrailLength: nat := 20

  lemma KonamiCommaFree()
    ensures |KonamiSequence()| == KonamiLength && AllCommaFree(KonamiSequence())
  {
    var k := KonamiSequence();
    assert CommaFree(k[0]) && CommaFree(k[2]) && CommaFree(k[4]) && CommaFree(k[5]);
    assert CommaFree(k[8]) && CommaFree(k[9]);
  }

  /** For comma-free key codes the source's `join(',')` comparison is exactly
      element-wise equality with the Konami sequence. */
  lemma KonamiJoinMatch(buf: seq<string>)
    requires AllCommaFree(buf)
    ensures Join(buf) == Join(KonamiSequence()) <==> buf == KonamiSequence()
  {
    KonamiCommaFree();
    SplitJoin(KonamiSequence());
    if |buf| == 0 {
      assert |Join(KonamiSequence())| > 0 by {
        assert Join(KonamiSequence()) == "ArrowUp" + "," + Join(KonamiSequence()[1..]);
      }
    } else {
      SplitJoin(buf);
    }
  }

  /** After a reset, fewer than ten further keys can never complete the sequence. */
  lemma NeedsTenKeys(sinceReset: seq<string>)
    requires |sinceReset| < KonamiLength
    ensures LastN(sinceReset, KonamiLength) != KonamiSequence()
  {
  }

  /** Sliding comma-free codes keeps them comma-free. */
  lemma SlideCommaFree(buf: seq<string>, code: string, cap: nat)
    requires AllCommaFree(buf) && CommaFree(code)
    ensures AllCommaFree(Slide(buf, code, cap))
  {
    var w := Slide(buf, code, cap);
    var pushed := buf + [code];
    forall k | 0 <= k < |w| ensures CommaFree(w[k]) {
      assert w[k] == pushed[|pushed| - |w| + k];
    }
  }

  /** So the joined comparison of the new window is element-wise equality. */
  lemma WindowMatch(buf: seq<string>, code: string)
    ensures AllCommaFree(buf) && CommaFree(code) ==>
      (Join(Slide(buf, code, KonamiLength)) == Join(KonamiSequence()) <==>
       Slide(buf, code, KonamiLength) == KonamiSequence())
  {
    if AllCommaFree(buf) && CommaFree(code) {
      SlideCommaFree(buf, code, KonamiLength);
      KonamiJoinMatch(Slide(buf, code, KonamiLength));
    }
  }

  /** The Konami keydown listener: `konamiCode` and the codes received since the
      last reset (ghost). */
  class KonamiListener {
    var konamiCode: seq<string>
    ghost var sinceReset: seq<string>

    ghost predicate Valid()
      reads this
    {
      && |konamiCode| <= KonamiLength
      && konamiCode == LastN(sinceReset, KonamiLength)
    }

    constructor ()
      ensures Valid() && konamiCode == [] && sinceReset == []
    {
      konamiCode := [];
      sinceReset := [];
    }

    /** `push` then one `shift` when longer than ten. */
    method Push(code: string)
      modifies this`konamiCode
      ensures konamiCode == Slide(old(konamiCode), code, KonamiLength)
    {
      konamiCode := konamiCode + [code];
      if |konamiCode| > KonamiLength {
        konamiCode := konamiCode[1..];
      }
    }

    /** One keydown: push the code, shift when longer than ten, and fire (then
        reset) when the joined window equals the joined sequence. */
    method KeyDown(code: string) returns (fired: bool)
      requires Valid()
      modifies this
      ensures Valid()
      ensures fired <==> Join(Slide(old(konamiCode), code, KonamiLength)) == Join(KonamiSequence())
      ensures AllCommaFree(old(konamiCode)) && CommaFree(code) ==>
        (fired <==> Slide(old(konamiCode), code, KonamiLength) == KonamiSequence())
      ensures fired ==> konamiCode == [] && sinceReset == []
      ensures !fired ==> konamiCode == Slide(old(konamiCode), code, KonamiLength) && sinceReset == old(sinceReset) + [code]
    {
      SlideKeepsLast(sinceReset, code, KonamiLength);
      WindowMatch(konamiCode, code);
      Push(code);
      sinceReset := sinceReset + [code];
      fired := Join(konamiCode) == Join(KonamiSequence());
      if fired {
        konamiCode := [];
        sinceReset := [];
      }
    }
  }

  /** The mouse trail: the dots still tracked, oldest first, and (ghost) every dot
      ever pushed. */
  class MouseTrail {
    var dots: seq<int>
    ghost var pushed: seq<int>

    ghost predicate Valid()
      reads this
    {
      && |dots| <= MaxTrailLength
      && dots == LastN(pushed, MaxTrailLength)
    }

    constructor ()
      ensures Valid() && dots == [] && pushed == []
    {
      dots := [];
      pushed := [];
    }

    /** One mousemove: the new dot is pushed; past twenty, the oldest is shifted
        off and returned for removal from the page. */
    method MouseMove(dot: int) returns (removed: Option<int>)
      requires Valid()
      modifies this
      ensures Valid()
      ensures dots == Slide(old(dots), dot, MaxTrailLength) && pushed == old(pushed) + [dot]
      ensures removed == if |old(dots)| == MaxTrailLength then Some(old(dots)[0]) else None
    {
      SlideKeepsLast(pushed, dot, MaxTrailLength);
      dots := dots + [dot];
      pushed := pushed + [dot];
      removed := None;
      if |dots| > MaxTrailLength {
        removed := Some(dots[0]);
        dots := dots[1..];
      }
    }
  }

  /** The lie detector button: a detection in progress and how many were started. */
  class LieDetector {
    var isDetecting: bool
    var detectionCount: nat

    constructor ()
      ensures !isDetecting && detectionCount == 0
    {
      isDetecting := false;
      detectionCount := 0;
    }

    /** A click: ignored while detecting; otherwise a detection starts and is
        counted. */
    method Click() returns (started: bool)
      modifies this
      ensures started <==> !old(isDetecting)
      ensures started ==> isDetecting && detectionCount == old(detectionCount) + 1
      ensures !started ==> isDetecting == old(isDetecting) && detectionCount == old(detectionCount)
    {
      if isDetecting {
        return false;
      }
      isDetecting := true;
      detectionCount := detectionCount + 1;
      started := true;
    }

    /** The reset timeout after the result is shown: the guard is released. */
    method DetectionDone()
      modifies this`isDetecting
      ensures !isDetecting
    {
      isDetecting := false;
    }
  }
}
