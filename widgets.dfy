/**
  The page's small widgets, each a row of active flags of which the script
  keeps at most one set: the hero slider (slides and their dots), the FAQ
  accordion and the reviews switcher (avatars and review panels).
 */
module Widgets {
  import opened Wrappers
  import opened Sequences

  /** The number of active items. */
  function CountActive(s: seq<bool>): nat {
    if s == [] then 0 else (if s[0] then 1 else 0) + CountActive(s[1..])
  }

  /** Item `k` is the only active one (no item is active when `k` is out of range). */
  ghost predicate OnlyActive(s: seq<bool>, k: int) {
    forall i :: 0 <= i < |s| ==> s[i] == (i == k)
  }

  lemma {:induction false} OnlyActiveCount(s: seq<bool>, k: int)
    requires OnlyActive(s, k)
    ensures CountActive(s) == if 0 <= k < |s| then 1 else 0
  {
    if s != [] {
      OnlyActiveCount(s[1..], k - 1);
    }
  }

  lemma {:induction false} NoneActiveCount(s: seq<bool>)
    requires forall i :: 0 <= i < |s| ==> !s[i]
    ensures CountActive(s) == 0
  {
    if s != [] {
      NoneActiveCount(s[1..]);
    }
  }

  /** Sets the flag of item `index` and clears every other one. */
  method MarkOnly(a: array<bool>, index: int)
    modifies a
    ensures OnlyActive(a[..], index)
  {
    var i := 0;
    while i < a.Length
      invariant 0 <= i <= a.Length
      invariant forall j :: 0 <= j < i ==> a[j] == (j == index)
    {
      a[i] := i == index;
      i := i + 1;
    }
  }

  /** Clears every flag. */
  method ClearAll(a: array<bool>)
    modifies a
    ensures forall j :: 0 <= j < a.Length ==> !a[j]
  {
    var i := 0;
    while i < a.Length
      invariant 0 <= i <= a.Length
      invariant forall j :: 0 <= j < i ==> !a[j]
    {
      a[i] := false;
      i := i + 1;
    }
  }

  /** The hero slider: the active flags of the slides and of the dots, and `currentSlide`. */
  class HeroSlider {
    const slides: array<bool>
    const dots: array<bool>
    var currentSlide: nat

    /** The slider is only set up when the page has slides. */
    ghost predicate Valid()
      reads this
    {
      slides.Length > 0 && slides != dots
    }

    constructor (slideFlags: seq<bool>, dotFlags: seq<bool>)
      requires |slideFlags| > 0
      ensures Valid() && fresh(slides) && fresh(dots)
      ensures slides[..] == slideFlags && dots[..] == dotFlags && currentSlide == 0
    {
      slides := new bool[|slideFlags|](i requires 0 <= i < |slideFlags| => slideFlags[i]);
      dots := new bool[|dotFlags|](i requires 0 <= i < |dotFlags| => dotFlags[i]);
      currentSlide := 0;
    }

    /** `showSlide(index)`: slide `index` and dot `index` become the only active ones. */
    method ShowSlide(index: nat)
      requires Valid()
      modifies this`currentSlide, slides, dots
      ensures Valid() && currentSlide == index
      ensures OnlyActive(slides[..], index) && OnlyActive(dots[..], index)
    {
      currentSlide := index;
      MarkOnly(slides, index);
      MarkOnly(dots, index);
    }

    /** `nextSlide`: the next slide, wrapping round after the last; it is
        the one active slide. */
    method NextSlide()
      requires Valid()
      modifies this`currentSlide, slides, dots
      ensures Valid()
      ensures currentSlide == (old(currentSlide) + 1) % slides.Length
      ensures currentSlide < slides.Length
      ensures OnlyActive(slides[..], currentSlide) && CountActive(slides[..]) == 1
      ensures OnlyActive(dots[..], currentSlide)
    {
      var next := (currentSlide + 1) % slides.Length;
      ShowSlide(next);
      OnlyActiveCount(slides[..], next);
    }

    /** A dot's click handler. With more dots than slides, a dot past the last
        slide leaves no slide active. */
    method OnDotClick(index: nat)
      requires Valid() && index < dots.Length
      modifies this`currentSlide, slides, dots
      ensures Valid() && currentSlide == index
      ensures OnlyActive(slides[..], index) && OnlyActive(dots[..], index)
      ensures CountActive(slides[..]) == (if index < slides.Length then 1 else 0)
      ensures CountActive(dots[..]) == 1
    {
      ShowSlide(index);
      OnlyActiveCount(slides[..], index);
      OnlyActiveCount(dots[..], index);
    }
  }

  /** An FAQ accordion: the items' open flags. */
  class Accordion {
    const items: array<bool>

    constructor (flags: seq<bool>)
      ensures fresh(items) && items[..] == flags
    {
      items := new bool[|flags|](i requires 0 <= i < |flags| => flags[i]);
    }

    /** A question's click handler: close every item, then open the clicked
        one if it was closed. At most one item stays open. */
    method Toggle(k: nat)
      requires k < items.Length
      modifies items
      ensures forall i :: 0 <= i < items.Length ==> items[i] == (i == k && !old(items[k]))
      ensures items[k] == !old(items[k])
      ensures CountActive(items[..]) == if old(items[k]) then 0 else 1
    {
      var wasActive := items[k];
      ClearAll(items);
      if !wasActive {
        items[k] := true;
        OnlyActiveCount(items[..], k);
      } else {
        NoneActiveCount(items[..]);
      }
    }
  }

  /** A character that may start a CSS identifier: a letter, `_` or any
      non-ASCII character. */
  predicate IdentStart(c: char) {
    ('a' <= c <= 'z') || ('A' <= c <= 'Z') || c == '_' || c >= '\U{0080}'
  }

  /** A character that may continue a CSS identifier. */
  predicate IdentChar(c: char) {
    IdentStart(c) || ('0' <= c <= '9') || c == '-'
  }

  /** An unescaped CSS identifier, the only kind of value for which `#value`
      is an id selector: identifier characters, starting with an identifier
      start, or with `-` followed by an identifier start or a second `-`. */
  predicate IsCssIdent(s: string) {
    && s != []
    && (forall k :: 0 <= k < |s| ==> IdentChar(s[k]))
    && (IdentStart(s[0]) || (s[0] == '-' && |s| > 1 && (IdentStart(s[1]) || s[1] == '-')))
  }

  /** The empty string, a leading digit and `-` followed by a digit are not
      identifiers, so `#` with them is no selector; nor is `a.b`, which after
      `#` would also ask for a class. Ordinary ids are identifiers. */
  lemma SelectorExamples()
    ensures !IsCssIdent("") && !IsCssIdent("1") && !IsCssIdent("-1") && !IsCssIdent("a.b")
    ensures IsCssIdent("review1") && IsCssIdent("-x") && IsCssIdent("--x") && IsCssIdent("отзыв")
  {
    assert !IdentChar("a.b"[1]);
  }

  /** The reviews switcher: avatar and review-panel flags, each avatar's
      `data-review` and each panel's id. */
  class ReviewSwitcher {
    const avatars: array<bool>
    const reviews: array<bool>
    const avatarTargets: seq<string>
    const reviewIds: seq<string>

    /** The switcher is only set up when there are avatars and panels. */
    ghost predicate Valid()
      reads this
    {
      && avatars.Length > 0 && reviews.Length > 0 && avatars != reviews
      && |avatarTargets| == avatars.Length && |reviewIds| == reviews.Length
    }

    constructor (avatarFlags: seq<bool>, reviewFlags: seq<bool>, targets: seq<string>, ids: seq<string>)
      requires |avatarFlags| > 0 && |reviewFlags| > 0
      requires |targets| == |avatarFlags| && |ids| == |reviewFlags|
      ensures Valid() && fresh(avatars) && fresh(reviews)
      ensures avatars[..] == avatarFlags && reviews[..] == reviewFlags
      ensures avatarTargets == targets && reviewIds == ids
    {
      avatars := new bool[|avatarFlags|](i requires 0 <= i < |avatarFlags| => avatarFlags[i]);
      reviews := new bool[|reviewFlags|](i requires 0 <= i < |reviewFlags| => reviewFlags[i]);
      avatarTargets := targets;
      reviewIds := ids;
    }

    /** `#<data-review>`: the first panel with that id. A value that is not a
        CSS identifier makes the selector throw, which leaves the page as if
        there were no target. */
    function TargetOf(j: nat): (t: Option<nat>)
      requires Valid() && j < avatars.Length
      reads this
      ensures t.Some? ==> IsCssIdent(avatarTargets[j])
      ensures t.Some? ==> t.value < |reviewIds| && reviewIds[t.value] == avatarTargets[j]
      ensures t.Some? ==> forall k :: 0 <= k < t.value ==> reviewIds[k] != avatarTargets[j]
      ensures t.None? <==> !IsCssIdent(avatarTargets[j]) || avatarTargets[j] !in reviewIds
    {
      if IsCssIdent(avatarTargets[j]) then FindFirst(reviewIds, (id: string) => id == avatarTargets[j]) else None
    }

    /** An avatar's click handler: deactivate every avatar and panel, then
        activate the clicked avatar and its panel, if it has one. */
    method OnAvatarClick(j: nat)
      requires Valid() && j < avatars.Length
      modifies avatars, reviews
      ensures OnlyActive(avatars[..], j) && CountActive(avatars[..]) == 1
      ensures TargetOf(j).Some? ==> OnlyActive(reviews[..], TargetOf(j).value) && CountActive(reviews[..]) == 1
      ensures TargetOf(j).None? ==> CountActive(reviews[..]) == 0
    {
      ClearAll(avatars);
      ClearAll(reviews);
      avatars[j] := true;
      OnlyActiveCount(avatars[..], j);
      match TargetOf(j)
      case Some(t) =>
        reviews[t] := true;
        OnlyActiveCount(reviews[..], t);
      case None =>
        NoneActiveCount(reviews[..]);
    }
  }
}
