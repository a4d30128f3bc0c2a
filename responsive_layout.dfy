/** The responsive-size rule of the home page (js/main.js, `checkSize`):
    on load and on every resize, a window narrower than 500 pixels gives
    five kinds of element their `*_small` class, and a wider one takes it
    away again. An element of the page is modelled by its class list (a
    set, since `addClass` never duplicates a class); the page is the array
    of its elements. */
module ResponsiveLayout {

  /** Windows narrower than this get the small layout. */
  const SmallWidth := 500

  /** Each class `checkSize` selects on, with the class it toggles on the
      elements so selected, in the order of the source. */
  const Toggles: seq<(string, string)> := [
    ("logofont", "logofont_small"),
    ("logofont2", "logofont2_small"),
    ("main_label", "main_label_small"),
    ("navbar2", "navbar2_small"),
    ("obutton", "obutton_small")
  ]

  /** The five classes `checkSize` adds or removes. */
  const SmallClasses: set<string> :=
    {"logofont_small", "logofont2_small", "main_label_small", "navbar2_small", "obutton_small"}

  /** No toggled class is itself one of the selector classes, so a pass
      never changes which elements a later pass selects. */
  predicate Separated(ts: seq<(string, string)>) {
    forall j, k :: 0 <= j < |ts| && 0 <= k < |ts| ==> ts[j].1 != ts[k].0
  }

  /** The toggled classes of the pairs whose selector class `c` has. */
  function Selected(c: set<string>, ts: seq<(string, string)>): set<string> {
    set k | 0 <= k < |ts| && ts[k].0 in c :: ts[k].1
  }

  /** The classes an element with classes `c` has after `checkSize` ran in
      a window `width` pixels wide. */
  function Resized(c: set<string>, width: int): (r: set<string>)
    ensures width < SmallWidth ==> forall k :: 0 <= k < |Toggles| && Toggles[k].0 in c ==> Toggles[k].1 in r
    ensures SmallWidth <= width ==> forall k :: 0 <= k < |Toggles| && Toggles[k].0 in c ==> Toggles[k].1 !in r
    ensures forall k :: 0 <= k < |Toggles| && Toggles[k].0 !in c ==> (Toggles[k].1 in r <==> Toggles[k].1 in c)
    ensures r - SmallClasses == c - SmallClasses
  {
    if width < SmallWidth then c + Selected(c, Toggles) else c - Selected(c, Toggles)
  }

  /** Running `checkSize` again at the same width changes nothing. */
  lemma ResizedIdempotent(c: set<string>, width: int)
    ensures Resized(Resized(c, width), width) == Resized(c, width)
  {
    var r := Resized(c, width);
    assert Selected(r, Toggles) == Selected(c, Toggles) by {
      forall k | 0 <= k < |Toggles| ensures Toggles[k].0 in r <==> Toggles[k].0 in c {
        assert Toggles[k].0 !in SmallClasses;
      }
    }
  }

  /** One jQuery call `$('.sel').addClass(cls)` (when `add`) or
      `$('.sel').removeClass(cls)`, on one element's classes. */
  function Pass(c: set<string>, t: (string, string), add: bool): set<string> {
    if t.0 !in c then c else if add then c + {t.1} else c - {t.1}
  }

  /** The calls for `ts`, one after another, on one element's classes. */
  function Passes(c: set<string>, ts: seq<(string, string)>, add: bool): set<string>
    decreases |ts|
  {
    if ts == [] then c else Passes(Pass(c, ts[0], add), ts[1..], add)
  }

  /** Separated passes, run one after another, add (or remove) at once the
      toggled class of every pair whose selector the element has. */
  lemma {:induction false} PassesSelected(c: set<string>, ts: seq<(string, string)>, add: bool)
    requires Separated(ts)
    ensures Passes(c, ts, add) == if add then c + Selected(c, ts) else c - Selected(c, ts)
    decreases |ts|
  {
    if ts != [] {
      var c' := Pass(c, ts[0], add);
      var rest := ts[1..];
      assert Separated(rest);
      PassesSelected(c', rest, add);
      assert Selected(c', rest) == Selected(c, rest) by {
        forall k | 0 <= k < |rest| ensures rest[k].0 in c' <==> rest[k].0 in c {
          assert rest[k] == ts[k + 1];
          assert rest[k].0 != ts[0].1;
        }
      }
      assert Selected(c, ts) == (if ts[0].0 in c then {ts[0].1} else {}) + Selected(c, rest) by {
        forall x | x in Selected(c, ts) ensures x in (if ts[0].0 in c then {ts[0].1} else {}) + Selected(c, rest) {
          var k :| 0 <= k < |ts| && ts[k].0 in c && ts[k].1 == x;
          if k > 0 {
            assert rest[k - 1] == ts[k];
          }
        }
        forall x | x in Selected(c, rest) ensures x in Selected(c, ts) {
          var k :| 0 <= k < |rest| && rest[k].0 in c && rest[k].1 == x;
          assert ts[k + 1] == rest[k];
        }
      }
    }
  }

  /** The source's five jQuery calls amount to `Resized`. */
  lemma CheckSizePasses(c: set<string>, width: int)
    ensures Passes(c, Toggles, width < SmallWidth) == Resized(c, width)
  {
    PassesSelected(c, Toggles, width < SmallWidth);
  }

  /** `$('.' + selector).addClass(cls)`: every element that has class
      `selector` gets class `cls`. */
  method AddClass(elems: array<set<string>>, selector: string, cls: string)
    modifies elems
    ensures forall i :: 0 <= i < elems.Length ==> elems[i] == Pass(old(elems[i]), (selector, cls), true)
  {
    for i := 0 to elems.Length
      invariant forall k :: 0 <= k < i ==> elems[k] == Pass(old(elems[k]), (selector, cls), true)
      invariant forall k :: i <= k < elems.Length ==> elems[k] == old(elems[k])
    {
      if selector in elems[i] {
        elems[i] := elems[i] + {cls};
      }
    }
  }

  /** `$('.' + selector).removeClass(cls)`: every element that has class
      `selector` loses class `cls`; other elements keep it. */
  method RemoveClass(elems: array<set<string>>, selector: string, cls: string)
    modifies elems
    ensures forall i :: 0 <= i < elems.Length ==> elems[i] == Pass(old(elems[i]), (selector, cls), false)
  {
    for i := 0 to elems.Length
      invariant forall k :: 0 <= k < i ==> elems[k] == Pass(old(elems[k]), (selector, cls), false)
      invariant forall k :: i <= k < elems.Length ==> elems[k] == old(elems[k])
    {
      if selector in elems[i] {
        elems[i] := elems[i] - {cls};
      }
    }
  }

  /** `checkSize()` for a window `width` by `height` pixels. The height is
      read by the source and never used. */
  method CheckSize(elems: array<set<string>>, width: int, height: int)
    modifies elems
    ensures forall i :: 0 <= i < elems.Length ==> elems[i] == Resized(old(elems[i]), width)
  {
    var add := width < SmallWidth;
    if add {
      AddClass(elems, "logofont", "logofont_small");
      AddClass(elems, "logofont2", "logofont2_small");
      AddClass(elems, "main_label", "main_label_small");
      AddClass(elems, "navbar2", "navbar2_small");
      AddClass(elems, "obutton", "obutton_small");
    } else {
      RemoveClass(elems, "logofont", "logofont_small");
      RemoveClass(elems, "logofont2", "logofont2_small");
      RemoveClass(elems, "main_label", "main_label_small");
      RemoveClass(elems, "navbar2", "navbar2_small");
      RemoveClass(elems, "obutton", "obutton_small");
    }
    forall i | 0 <= i < elems.Length ensures elems[i] == Resized(old(elems[i]), width) {
      CheckSizePasses(old(elems[i]), width);
      UnfoldToggles(old(elems[i]), add);
    }
  }

  /** `Passes` over `Toggles`, written out as the source's five calls. */
  lemma UnfoldToggles(c: set<string>, add: bool)
    ensures Passes(c, Toggles, add)
         == Pass(Pass(Pass(Pass(Pass(c, Toggles[0], add), Toggles[1], add), Toggles[2], add), Toggles[3], add), Toggles[4], add)
  {
    assert Toggles[1..][1..][1..][1..][1..] == [];
  }
}
