/** The studio's virtual tour of `src/components/studio/VirtualTourGallery.tsx`: six
    photographs, a fullscreen view that steps through them by button, arrow key or
    autoplay timer, and a button that starts the tour from the first photograph. */
module VirtualTour {
  import opened Common

  /** The number of tour photographs. */
  const TourSize := 6

  /** `goToNext` on an index. */
  function NextIndex(i: int): int
  {
    JsRem(i + 1, TourSize)
  }

  /** `goToPrevious` on an index. */
  function PrevIndex(i: int): int
  {
    JsRem(i - 1 + TourSize, TourSize)
  }

  /** Both steps stay on the tour and undo each other. */
  lemma StepsInverse(i: int)
    requires 0 <= i < TourSize
    ensures 0 <= NextIndex(i) < TourSize && 0 <= PrevIndex(i) < TourSize
    ensures NextIndex(i) == (if i == TourSize - 1 then 0 else i + 1)
    ensures PrevIndex(i) == (if i == 0 then TourSize - 1 else i - 1)
    ensures PrevIndex(NextIndex(i)) == i && NextIndex(PrevIndex(i)) == i
  {
  }

  /** One step forward from a remainder is the remainder of the next number. */
  lemma StepMod(a: nat)
    ensures NextIndex(a % TourSize) == (a + 1) % TourSize
  {
    var q := a / TourSize;
    var r := a % TourSize;
    assert a == 6 * q + r;
    if r == TourSize - 1 {
      assert a + 1 == 6 * (q + 1);
    } else {
      assert a + 1 == 6 * q + (r + 1);
    }
  }

  lemma FullCircle(i: int)
    requires 0 <= i < TourSize
    ensures (i + TourSize) % TourSize == i
  {
  }

  /** `k` steps forward. */
  function Forward(i: int, k: nat): int
  {
    if k == 0 then i else NextIndex(Forward(i, k - 1))
  }

  /** `k` steps forward land `k` places on, around the tour; six bring it back. */
  lemma {:induction false} ForwardAround(i: int, k: nat)
    requires 0 <= i < TourSize
    ensures Forward(i, k) == (i + k) % TourSize
    ensures k == TourSize ==> Forward(i, k) == i
  {
    if k > 0 {
      ForwardAround(i, k - 1);
      assert Forward(i, k) == NextIndex((i + k - 1) % TourSize);
      StepMod(i + k - 1);
      if k == TourSize {
        FullCircle(i);
      }
    }
  }

  datatype Key = Escape | ArrowLeft | ArrowRight | OtherKey(name: string)

  class TourGallery {
    /** The photograph shown fullscreen, or None when the fullscreen view is closed. */
    var selectedIndex: Option<int>
    var isAutoPlaying: bool

    /** An open view shows one of the six photographs. */
    predicate Valid()
      reads this
    {
      selectedIndex.Some? ==> 0 <= selectedIndex.value < TourSize
    }

    constructor()
      ensures selectedIndex == None && !isAutoPlaying && Valid()
    {
      selectedIndex := None;
      isAutoPlaying := false;
    }

    /** A thumbnail click, or a dot under the fullscreen photograph. */
    method OpenFullscreen(index: int)
      requires 0 <= index < TourSize
      modifies this`selectedIndex
      ensures selectedIndex == Some(index) && Valid()
    {
      selectedIndex := Some(index);
    }

    method CloseFullscreen()
      modifies this
      ensures selectedIndex == None && !isAutoPlaying && Valid()
    {
      selectedIndex := None;
      isAutoPlaying := false;
    }

    method GoToNext()
      requires Valid()
      modifies this`selectedIndex
      ensures Valid()
      ensures old(selectedIndex).None? ==> selectedIndex == None
      ensures old(selectedIndex).Some? ==> selectedIndex == Some(NextIndex(old(selectedIndex).value))
    {
      if selectedIndex.Some? {
        StepsInverse(selectedIndex.value);
        selectedIndex := Some(NextIndex(selectedIndex.value));
      }
    }

    method GoToPrevious()
      requires Valid()
      modifies this`selectedIndex
      ensures Valid()
      ensures old(selectedIndex).None? ==> selectedIndex == None
      ensures old(selectedIndex).Some? ==> selectedIndex == Some(PrevIndex(old(selectedIndex).value))
    {
      if selectedIndex.Some? {
        StepsInverse(selectedIndex.value);
        selectedIndex := Some(PrevIndex(selectedIndex.value));
      }
    }

    /** "Start Virtual Tour": the first photograph, with autoplay on. */
    method StartTour()
      modifies this
      ensures selectedIndex == Some(0) && isAutoPlaying && Valid()
    {
      OpenFullscreen(0);
      isAutoPlaying := true;
    }

    /** The key handler: ignored while closed; Escape closes, the arrows step. */
    method HandleKey(key: Key)
      requires Valid()
      modifies this
      ensures Valid()
      ensures old(selectedIndex).None? ==>
        selectedIndex == old(selectedIndex) && isAutoPlaying == old(isAutoPlaying)
      ensures old(selectedIndex).Some? ==>
        match key
        case Escape => selectedIndex == None && !isAutoPlaying
        case ArrowLeft => selectedIndex == Some(PrevIndex(old(selectedIndex).value)) && isAutoPlaying == old(isAutoPlaying)
        case ArrowRight => selectedIndex == Some(NextIndex(old(selectedIndex).value)) && isAutoPlaying == old(isAutoPlaying)
        case OtherKey(_) => selectedIndex == old(selectedIndex) && isAutoPlaying == old(isAutoPlaying)
    {
      if selectedIndex.None? {
        return;
      }
      if key == Escape {
        CloseFullscreen();
      }
      if key == ArrowLeft {
        GoToPrevious();
      }
      if key == ArrowRight {
        GoToNext();
      }
    }

    /** One tick of the four-second autoplay timer, which runs only while autoplay is on
        and the view is open. */
    method AutoplayTick()
      requires Valid()
      modifies this`selectedIndex
      ensures Valid()
      ensures old(isAutoPlaying) && old(selectedIndex).Some? ==>
        selectedIndex == Some(NextIndex(old(selectedIndex).value))
      ensures !(old(isAutoPlaying) && old(selectedIndex).Some?) ==> selectedIndex == old(selectedIndex)
    {
      if !isAutoPlaying || selectedIndex.None? {
        return;
      }
      GoToNext();
    }
  }

  /** Six autoplay ticks after starting the tour come back to the first photograph. */
  method TourLoops(g: TourGallery)
    modifies g
    ensures g.selectedIndex == Some(0) && g.isAutoPlaying
  {
    g.StartTour();
    var k := 0;
    while k < TourSize
      invariant 0 <= k <= TourSize
      invariant g.Valid() && g.isAutoPlaying
      invariant g.selectedIndex == Some(Forward(0, k))
    {
      g.AutoplayTick();
      k := k + 1;
    }
    ForwardAround(0, TourSize);
  }
}
