/**
 * The screen matcher of the USSD automation service: pure functions over one
 * snapshot of an accessibility node tree.
 *
 * A node carries what the service reads from `AccessibilityNodeInfo` plus two
 * oracles standing for the platform's answer to `performAction`: whether
 * ACTION_SET_TEXT and ACTION_CLICK succeed on it. Nodes are named by their path of
 * child indices from the window root; the pre-order list `Walk` is the reference for
 * "document order", the order of every recursive search in the service.
 */
module Screen {
  import opened Optional
  import opened Text

  type Path = seq<nat>

  datatype Node = Node(
    text: Option<string>,
    description: Option<string>,
    hint: Option<string>,
    className: Option<string>,
    packageName: Option<string>,
    editable: bool,
    focusable: bool,
    inputFocus: bool,
    acceptsText: bool,
    acceptsClick: bool,
    children: seq<Node>)

  datatype Located = Located(path: Path, node: Node)

  // ---------------------------------------------------------------- document order

  /** The nodes of the tree rooted at `n` (which sits at path `p`), in pre-order. */
  function Walk(n: Node, p: Path): seq<Located>
    decreases n, |n.children| + 1
  {
    [Located(p, n)] + WalkChildren(n, p, 0)
  }

  function WalkChildren(n: Node, p: Path, i: nat): seq<Located>
    requires i <= |n.children|
    decreases n, |n.children| - i
  {
    if i == |n.children| then [] else Walk(n.children[i], p + [i]) + WalkChildren(n, p, i + 1)
  }

  /** The node reached from `n` by following the child indices of `path`. */
  function NodeAt(n: Node, path: Path): Option<Node>
    decreases |path|
  {
    if path == [] then Some(n)
    else if path[0] < |n.children| then NodeAt(n.children[path[0]], path[1..])
    else None
  }

  /** Every entry of `xs` lies below `p` and its path, taken relative to `p`, leads from `n` to its node. */
  predicate Locates(n: Node, p: Path, xs: seq<Located>) {
    forall k :: 0 <= k < |xs| ==> p <= xs[k].path && NodeAt(n, xs[k].path[|p|..]) == Some(xs[k].node)
  }

  lemma LocatesAppend(n: Node, p: Path, a: seq<Located>, b: seq<Located>)
    requires Locates(n, p, a) && Locates(n, p, b)
    ensures Locates(n, p, a + b)
  {
    forall k | 0 <= k < |a + b|
      ensures p <= (a + b)[k].path && NodeAt(n, (a + b)[k].path[|p|..]) == Some((a + b)[k].node)
    {
      if k < |a| {
        assert (a + b)[k] == a[k];
      } else {
        assert (a + b)[k] == b[k - |a|];
      }
    }
  }

  /** The walk is faithful: each entry's path leads to the entry's node. */
  lemma {:induction false} WalkLocates(n: Node, p: Path)
    ensures Locates(n, p, Walk(n, p))
    decreases n, |n.children| + 1
  {
    WalkChildrenLocates(n, p, 0);
    assert Locates(n, p, [Located(p, n)]) by {
      assert p[|p|..] == [];
    }
    LocatesAppend(n, p, [Located(p, n)], WalkChildren(n, p, 0));
  }

  lemma {:induction false} WalkChildrenLocates(n: Node, p: Path, i: nat)
    requires i <= |n.children|
    ensures Locates(n, p, WalkChildren(n, p, i))
    decreases n, |n.children| - i
  {
    if i < |n.children| {
      var c := n.children[i];
      var xs := Walk(c, p + [i]);
      WalkLocates(c, p + [i]);
      WalkChildrenLocates(n, p, i + 1);
      forall k | 0 <= k < |xs|
        ensures p <= xs[k].path && NodeAt(n, xs[k].path[|p|..]) == Some(xs[k].node)
      {
        var q := xs[k].path;
        assert p + [i] <= q;
        var rel := q[|p|..];
        assert rel[0] == i;
        assert rel[1..] == q[|p + [i]|..];
      }
      LocatesAppend(n, p, xs, WalkChildren(n, p, i + 1));
    }
  }

  /** A node of the walk from the root sits at its own path. */
  lemma WalkedNodeAt(root: Node, l: Located)
    requires l in Walk(root, [])
    ensures NodeAt(root, l.path) == Some(l.node)
  {
    WalkLocates(root, []);
    var k :| 0 <= k < |Walk(root, [])| && Walk(root, [])[k] == l;
    assert l.path[0..] == l.path;
  }

  /** The index of the first entry at or after `from` whose node satisfies `f`. */
  function FirstIndex(xs: seq<Located>, f: Node -> bool, from: nat): (r: Option<nat>)
    requires from <= |xs|
    ensures r.Some? ==> from <= r.value < |xs| && f(xs[r.value].node)
    ensures r.Some? ==> forall j :: from <= j < r.value ==> !f(xs[j].node)
    ensures r.None? ==> forall j :: from <= j < |xs| ==> !f(xs[j].node)
    decreases |xs| - from
  {
    if from == |xs| then None
    else if f(xs[from].node) then Some(from)
    else FirstIndex(xs, f, from + 1)
  }

  /** The first entry whose node satisfies `f` (a recursive pre-order search of the service, over the walk). */
  function First(xs: seq<Located>, f: Node -> bool): (r: Option<Located>)
    ensures r.Some? ==> r.value in xs && f(r.value.node)
    ensures r.Some? ==> exists k :: 0 <= k < |xs| && xs[k] == r.value && forall j :: 0 <= j < k ==> !f(xs[j].node)
    ensures r.None? <==> forall j :: 0 <= j < |xs| ==> !f(xs[j].node)
  {
    match FirstIndex(xs, f, 0)
    case Some(k) => Some(xs[k])
    case None => None
  }

  /** `sub` is `xs` with some entries left out and the rest in their order. */
  predicate IsSubsequence(sub: seq<Located>, xs: seq<Located>)
    decreases |xs|
  {
    if |sub| == 0 then true
    else if |xs| == 0 then false
    else if sub[0] == xs[0] then IsSubsequence(sub[1..], xs[1..])
    else IsSubsequence(sub, xs[1..])
  }

  /** The entries whose node satisfies `f`, in order (a recursive collect of the service). */
  function Filter(xs: seq<Located>, f: Node -> bool): (r: seq<Located>)
    ensures forall l :: l in r <==> l in xs && f(l.node)
    ensures IsSubsequence(r, xs)
  {
    if |xs| == 0 then []
    else
      var rest := Filter(xs[1..], f);
      if f(xs[0].node) then
        assert ([xs[0]] + rest)[1..] == rest;
        [xs[0]] + rest
      else
        assert |rest| > 0 ==> rest[0] != xs[0] by {
          if |rest| > 0 { assert rest[0] in rest; }
        }
        rest
  }

  /** Taking the first of a collected list is the same as searching for the first in order. */
  lemma {:induction false} FirstOfFilter(xs: seq<Located>, f: Node -> bool)
    ensures |Filter(xs, f)| == 0 <==> First(xs, f).None?
    ensures |Filter(xs, f)| > 0 ==> First(xs, f) == Some(Filter(xs, f)[0])
  {
    if |xs| > 0 {
      FirstOfFilter(xs[1..], f);
      if !f(xs[0].node) {
        assert FirstIndex(xs, f, 0) == FirstIndex(xs, f, 1);
        FirstIndexShift(xs, f, 1);
      }
    }
  }

  /** The first entry of a non-empty list is its head when that satisfies `f`, else the first of its tail. */
  lemma FirstCons(xs: seq<Located>, f: Node -> bool)
    requires |xs| > 0
    ensures First(xs, f) == if f(xs[0].node) then Some(xs[0]) else First(xs[1..], f)
  {
    if !f(xs[0].node) {
      assert FirstIndex(xs, f, 0) == FirstIndex(xs, f, 1);
      FirstIndexShift(xs, f, 1);
    }
  }

  /**
   * Searching a collected list for `g` finds what a single pass over the walk finds when
   * it asks for both the collecting test `f` and `g` (`h` is that conjunction).
   */
  lemma {:induction false} FirstOfFiltered(xs: seq<Located>, f: Node -> bool, g: Node -> bool, h: Node -> bool)
    requires forall n :: h(n) == (f(n) && g(n))
    ensures First(Filter(xs, f), g) == First(xs, h)
  {
    if |xs| > 0 {
      FirstOfFiltered(xs[1..], f, g, h);
      FirstCons(xs, h);
      var rest := Filter(xs[1..], f);
      if f(xs[0].node) {
        FirstCons([xs[0]] + rest, g);
        assert ([xs[0]] + rest)[1..] == rest;
      }
    }
  }

  /** Searching from `from` in `xs` is searching from `from - 1` in its tail. */
  lemma {:induction false} FirstIndexShift(xs: seq<Located>, f: Node -> bool, from: nat)
    requires 1 <= from <= |xs|
    ensures FirstIndex(xs, f, from) == (match FirstIndex(xs[1..], f, from - 1) case Some(k) => Some(k + 1) case None => None)
    decreases |xs| - from
  {
    if from < |xs| {
      assert xs[1..][from - 1] == xs[from];
      if !f(xs[from].node) {
        FirstIndexShift(xs, f, from + 1);
      }
    }
  }

  // ---------------------------------------------------------------- text search

  /** The trimmed text or content description, `""` when absent. */
  function TrimmedText(n: Node): string { Trim(n.text.GetOr("")) }
  function TrimmedDescription(n: Node): string { Trim(n.description.GetOr("")) }

  /** This node's own trimmed text or description contains one of `texts` (case-sensitive). */
  predicate ShowsAny(n: Node, texts: seq<string>) {
    exists i :: 0 <= i < |texts| && (Contains(TrimmedText(n), texts[i]) || Contains(TrimmedDescription(n), texts[i]))
  }

  /** `rootContainsAnyText`: this node or one of its descendants shows one of `texts`. */
  predicate ContainsAnyText(n: Node, texts: seq<string>)
    decreases n
  {
    ShowsAny(n, texts) || exists i :: 0 <= i < |n.children| && ContainsAnyText(n.children[i], texts)
  }

  /** The recursive search agrees with the walk: some node in document order shows one of `texts`. */
  lemma {:induction false} ContainsAnyTextWalk(n: Node, p: Path, texts: seq<string>)
    ensures ContainsAnyText(n, texts) <==> exists l :: l in Walk(n, p) && ShowsAny(l.node, texts)
    decreases n, |n.children| + 1
  {
    ChildrenContainAnyText(n, p, 0, texts);
    assert Located(p, n) in Walk(n, p);
    assert forall l :: l in Walk(n, p) <==> l == Located(p, n) || l in WalkChildren(n, p, 0);
  }

  lemma {:induction false} ChildrenContainAnyText(n: Node, p: Path, i: nat, texts: seq<string>)
    requires i <= |n.children|
    ensures (exists j :: i <= j < |n.children| && ContainsAnyText(n.children[j], texts)) <==>
      (exists l :: l in WalkChildren(n, p, i) && ShowsAny(l.node, texts))
    decreases n, |n.children| - i
  {
    if i < |n.children| {
      var c := n.children[i];
      var head := Walk(c, p + [i]);
      var tail := WalkChildren(n, p, i + 1);
      ContainsAnyTextWalk(c, p + [i], texts);
      ChildrenContainAnyText(n, p, i + 1, texts);
      assert WalkChildren(n, p, i) == head + tail;
      if exists j :: i <= j < |n.children| && ContainsAnyText(n.children[j], texts) {
        var j :| i <= j < |n.children| && ContainsAnyText(n.children[j], texts);
        var l: Located;
        if j == i {
          l :| l in head && ShowsAny(l.node, texts);
        } else {
          l :| l in tail && ShowsAny(l.node, texts);
        }
        assert l in head + tail;
      }
      if exists l :: l in WalkChildren(n, p, i) && ShowsAny(l.node, texts) {
        var l: Located :| l in head + tail && ShowsAny(l.node, texts);
        if l in head {
          assert ContainsAnyText(n.children[i], texts);
        } else {
          var j :| i + 1 <= j < |n.children| && ContainsAnyText(n.children[j], texts);
        }
      }
    }
  }

  // ---------------------------------------------------------------- dialog root

  /** Line 183: text that identifies a USSD dialog. */
  const UssdMarkers: seq<string> := ["SEND", "CANCEL", "Send Money", "Withdraw Cash", "Yes", "No", "To continue"]

  /** `isOurAppRoot`: a root with no package name counts as the app's own. */
  predicate IsOurAppRoot(root: Node, ownPackage: string) {
    root.packageName.None? || root.packageName.value == ownPackage
  }

  /** A root the service may type into: another app's window showing a USSD marker. */
  predicate Eligible(root: Node, ownPackage: string) {
    !IsOurAppRoot(root, ownPackage) && ContainsAnyText(root, UssdMarkers)
  }

  predicate WindowEligible(w: Option<Node>, ownPackage: string) {
    w.Some? && Eligible(w.value, ownPackage)
  }

  /** Window `k` is eligible and no later window is. */
  predicate IsLastEligible(ws: seq<Option<Node>>, ownPackage: string, k: int) {
    0 <= k < |ws| && WindowEligible(ws[k], ownPackage) &&
    forall j :: k < j < |ws| ==> !WindowEligible(ws[j], ownPackage)
  }

  /** The loop of lines 201-206: the last eligible window root from index `i` on, else `lastMatch`. */
  function LastEligible(ws: seq<Option<Node>>, ownPackage: string, i: nat, lastMatch: Option<Node>): (r: Option<Node>)
    requires i <= |ws|
    requires lastMatch.Some? ==> Eligible(lastMatch.value, ownPackage)
    ensures r.Some? ==> Eligible(r.value, ownPackage)
    ensures (forall k :: i <= k < |ws| ==> !WindowEligible(ws[k], ownPackage)) ==> r == lastMatch
    ensures forall k :: i <= k && IsLastEligible(ws, ownPackage, k) ==> r == ws[k]
    decreases |ws| - i
  {
    if i == |ws| then lastMatch
    else if WindowEligible(ws[i], ownPackage) then
      var r := LastEligible(ws, ownPackage, i + 1, ws[i]);
      assert IsLastEligible(ws, ownPackage, i) ==> r == ws[i];
      r
    else LastEligible(ws, ownPackage, i + 1, lastMatch)
  }

  /**
   * `getUssdDialogRoot`: the active window's root when it is eligible, otherwise the
   * last eligible root in window-list order, otherwise nothing.
   */
  function DialogRoot(ownPackage: string, active: Option<Node>, windows: Option<seq<Option<Node>>>): (r: Option<Node>)
    ensures r.Some? ==> Eligible(r.value, ownPackage)
    ensures r.Some? ==> r.value.packageName.Some? && r.value.packageName.value != ownPackage
    ensures WindowEligible(active, ownPackage) ==> r == active
    ensures !WindowEligible(active, ownPackage) && windows.None? ==> r.None?
    ensures !WindowEligible(active, ownPackage) && windows.Some? ==>
      ((forall k :: 0 <= k < |windows.value| ==> !WindowEligible(windows.value[k], ownPackage)) ==> r.None?)
    ensures !WindowEligible(active, ownPackage) && windows.Some? ==>
      forall k :: IsLastEligible(windows.value, ownPackage, k) ==> r == windows.value[k]
  {
    if WindowEligible(active, ownPackage) then active
    else match windows
      case None => None
      case Some(ws) => LastEligible(ws, ownPackage, 0, None)
  }

  // ---------------------------------------------------------------- editable targets

  predicate IsInputFocused(n: Node) { n.inputFocus }

  predicate IsEditable(n: Node) { n.editable }

  /** `findFirstFocusableInput`'s test. */
  predicate IsFocusableInput(n: Node) {
    n.focusable && (n.editable || ContainsIgnoreCase(n.className.GetOr(""), "EditText"))
  }

  /** `findFirstFocusableInRoot`'s test. */
  predicate IsFocusableEdit(n: Node) {
    n.focusable && ContainsIgnoreCase(n.className.GetOr(""), "Edit")
  }

  /** `collectEditableNodes`. */
  function EditableNodes(root: Node): seq<Located> {
    Filter(Walk(root, []), IsEditable)
  }

  /**
   * Lines 279-290: the input-focused node, else the first editable, else the first
   * focusable input, else the first focusable "Edit" class, each in document order.
   */
  function InputTarget(root: Node): (r: Option<Located>)
    ensures r.Some? ==> r.value in Walk(root, [])
    ensures r.Some? ==> var n := r.value.node;
      IsInputFocused(n) || IsEditable(n) || IsFocusableInput(n) || IsFocusableEdit(n)
    ensures r.None? <==> forall l :: l in Walk(root, []) ==>
      !IsInputFocused(l.node) && !IsEditable(l.node) && !IsFocusableInput(l.node) && !IsFocusableEdit(l.node)
    ensures (exists l :: l in Walk(root, []) && IsInputFocused(l.node)) ==> r.Some? && IsInputFocused(r.value.node)
    ensures First(Walk(root, []), IsInputFocused).Some? ==> r == First(Walk(root, []), IsInputFocused)
    ensures (forall l :: l in Walk(root, []) ==> !IsInputFocused(l.node)) && First(Walk(root, []), IsEditable).Some? ==>
      r == First(Walk(root, []), IsEditable)
    ensures ((forall l :: l in Walk(root, []) ==> !IsInputFocused(l.node) && !IsEditable(l.node)) &&
      First(Walk(root, []), IsFocusableInput).Some?) ==> r == First(Walk(root, []), IsFocusableInput)
    ensures (forall l :: l in Walk(root, []) ==> !IsInputFocused(l.node) && !IsEditable(l.node) && !IsFocusableInput(l.node)) ==>
      r == First(Walk(root, []), IsFocusableEdit)
  {
    var all := Walk(root, []);
    var focused := First(all, IsInputFocused);
    if focused.Some? then focused
    else
      var editables := EditableNodes(root);
      FirstOfFilter(all, IsEditable);
      if |editables| > 0 then Some(editables[0])
      else
        var input := First(all, IsFocusableInput);
        if input.Some? then input
        else First(all, IsFocusableEdit)
  }

  /** The node at `path` exists and accepts ACTION_SET_TEXT. */
  predicate AcceptsTextAt(root: Node, path: Path) {
    NodeAt(root, path).Some? && NodeAt(root, path).value.acceptsText
  }

  /** The node at `path` exists and accepts ACTION_CLICK. */
  predicate AcceptsClickAt(root: Node, path: Path) {
    NodeAt(root, path).Some? && NodeAt(root, path).value.acceptsClick
  }

  /**
   * `setTextOnFocusedOrFirstEditable`: the path written to, if the chosen target
   * accepted the text. The target is chosen once; a refusal is final.
   */
  function SetTextOnTarget(root: Node): (r: Option<Path>)
    ensures r.Some? ==> AcceptsTextAt(root, r.value)
    ensures r.Some? <==> InputTarget(root).Some? && InputTarget(root).value.node.acceptsText
    ensures r.Some? ==> r.value == InputTarget(root).value.path
  {
    match InputTarget(root)
    case None => None
    case Some(l) =>
      WalkedNodeAt(root, l);
      if l.node.acceptsText then Some(l.path) else None
  }

  /** Case-insensitive keyword test on the hint or description (not trimmed). */
  predicate HintMatches(n: Node, keywords: seq<string>) {
    exists i :: 0 <= i < |keywords| &&
      (Contains(Lower(n.hint.GetOr("")), Lower(keywords[i])) || Contains(Lower(n.description.GetOr("")), Lower(keywords[i])))
  }

  /** An editable whose hint or description matches a keyword and that accepts the text. */
  predicate HintTarget(n: Node, keywords: seq<string>) {
    n.editable && HintMatches(n, keywords) && n.acceptsText
  }

  /**
   * `setTextOnNodeWithHint`: the first editable, in document order, whose hint or
   * description matches a keyword and that accepts the text; a matching node that
   * refuses is passed over.
   */
  function SetTextOnHinted(root: Node, keywords: seq<string>): (r: Option<Path>)
    ensures r.Some? ==> AcceptsTextAt(root, r.value)
    ensures r.Some? ==> exists k :: (0 <= k < |Walk(root, [])| && Walk(root, [])[k].path == r.value &&
      HintTarget(Walk(root, [])[k].node, keywords) && forall j :: 0 <= j < k ==> !HintTarget(Walk(root, [])[j].node, keywords))
    ensures r.None? <==> forall l :: l in Walk(root, []) && l.node.editable && HintMatches(l.node, keywords) ==> !l.node.acceptsText
  {
    var all := Walk(root, []);
    var hit := First(EditableNodes(root), n => HintMatches(n, keywords) && n.acceptsText);
    FirstOfFiltered(all, IsEditable, n => HintMatches(n, keywords) && n.acceptsText, n => HintTarget(n, keywords));
    match hit
    case None => None
    case Some(l) =>
      WalkedNodeAt(root, l);
      Some(l.path)
  }

  // ---------------------------------------------------------------- click targets

  /** `collectNodesWithText`'s test; only the wanted "1" also accepts a "1." or "1 " menu prefix. */
  predicate LabelMatches(n: Node, wanted: string) {
    var t := TrimmedText(n);
    var d := TrimmedDescription(n);
    if wanted == "1" then
      t == "1" || d == "1" || StartsWith(t, "1.") || StartsWith(t, "1 ") || StartsWith(d, "1.") || StartsWith(d, "1 ")
    else t == wanted || d == wanted
  }

  /** `LabelMatches` as a test on nodes, so that every search for one label uses the same test. */
  function LabelTest(wanted: string): Node -> bool {
    n => LabelMatches(n, wanted)
  }

  /** `collectNodesWithText`: the nodes matching `wanted`, in document order. */
  function NodesWithText(root: Node, wanted: string): (r: seq<Located>)
    ensures forall l :: l in r <==> l in Walk(root, []) && LabelMatches(l.node, wanted)
    ensures IsSubsequence(r, Walk(root, []))
  {
    Filter(Walk(root, []), LabelTest(wanted))
  }

  /**
   * The walk up of lines 233-238: the node at `q` if it accepts a click, otherwise its
   * nearest ancestor that does.
   */
  function ClickUp(root: Node, q: Path): (r: Option<Path>)
    ensures r.Some? ==> r.value <= q && AcceptsClickAt(root, r.value)
    ensures r.Some? ==> forall j :: |r.value| < j <= |q| ==> !AcceptsClickAt(root, q[..j])
    ensures r.None? <==> forall j :: 0 <= j <= |q| ==> !AcceptsClickAt(root, q[..j])
    decreases |q|
  {
    if AcceptsClickAt(root, q) then
      assert q[..|q|] == q;
      Some(q)
    else if |q| == 0 then None
    else
      var parent := q[..|q| - 1];
      assert forall j :: 0 <= j <= |parent| ==> parent[..j] == q[..j];
      assert q[..|q|] == q;
      ClickUp(root, parent)
  }

  /** The walk up from a path, as a function of the path. */
  function ClickUpFrom(root: Node): Path -> Option<Path> {
    q => ClickUp(root, q)
  }

  /**
   * Lines 232-240 from the `i`-th collected node on, with `up` the walk up: the result of
   * the first node whose walk up finds a clickable.
   */
  function ClickAmong(nodes: seq<Located>, up: Path -> Option<Path>, i: nat): (r: Option<Path>)
    requires i <= |nodes|
    ensures r.Some? ==> exists k :: (i <= k < |nodes| && r == up(nodes[k].path) &&
      forall j :: i <= j < k ==> up(nodes[j].path).None?)
    ensures r.None? <==> forall k :: i <= k < |nodes| ==> up(nodes[k].path).None?
    decreases |nodes| - i
  {
    if i == |nodes| then None
    else match up(nodes[i].path)
      case Some(q) => Some(q)
      case None => ClickAmong(nodes, up, i + 1)
  }

  /** Trying the nodes of `[x] + ys` from index `i + 1` is trying those of `ys` from `i`. */
  lemma {:induction false} ClickAmongTail(x: Located, ys: seq<Located>, up: Path -> Option<Path>, i: nat)
    requires i <= |ys|
    ensures ClickAmong([x] + ys, up, i + 1) == ClickAmong(ys, up, i)
    decreases |ys| - i
  {
    if i < |ys| {
      assert ([x] + ys)[i + 1] == ys[i];
      ClickAmongTail(x, ys, up, i + 1);
    }
  }

  /**
   * The click search as one pass in document order: the walk up from the first entry at
   * or after `i` that satisfies `f` and whose walk up finds a clickable.
   */
  function ClickFirstMatch(xs: seq<Located>, f: Node -> bool, up: Path -> Option<Path>, i: nat): (r: Option<Path>)
    requires i <= |xs|
    ensures r.Some? ==> exists k :: (i <= k < |xs| && f(xs[k].node) && r == up(xs[k].path) &&
      forall j :: i <= j < k && f(xs[j].node) ==> up(xs[j].path).None?)
    ensures r.None? <==> forall k :: i <= k < |xs| && f(xs[k].node) ==> up(xs[k].path).None?
    decreases |xs| - i
  {
    if i == |xs| then None
    else if f(xs[i].node) && up(xs[i].path).Some? then up(xs[i].path)
    else ClickFirstMatch(xs, f, up, i + 1)
  }

  /** Collecting the matches and then trying them in turn is the one-pass search. */
  lemma {:induction false} ClickAmongFilter(xs: seq<Located>, f: Node -> bool, up: Path -> Option<Path>, i: nat)
    requires i <= |xs|
    ensures ClickAmong(Filter(xs[i..], f), up, 0) == ClickFirstMatch(xs, f, up, i)
    decreases |xs| - i
  {
    if i < |xs| {
      ClickAmongFilter(xs, f, up, i + 1);
      var rest := Filter(xs[i + 1..], f);
      assert xs[i..][1..] == xs[i + 1..];
      if f(xs[i].node) {
        assert Filter(xs[i..], f) == [xs[i]] + rest;
        ClickAmongTail(xs[i], rest, up, 0);
      } else {
        assert Filter(xs[i..], f) == rest;
      }
    }
  }

  /** What the walk-up search clicks accepts the click and sits at or above one of the nodes tried. */
  lemma ClickAmongLands(root: Node, nodes: seq<Located>)
    ensures var r := ClickAmong(nodes, ClickUpFrom(root), 0);
      r.Some? ==> AcceptsClickAt(root, r.value) && exists l :: l in nodes && r.value <= l.path
  {
    var r := ClickAmong(nodes, ClickUpFrom(root), 0);
    if r.Some? {
      var k :| 0 <= k < |nodes| && r == ClickUpFrom(root)(nodes[k].path);
      assert nodes[k] in nodes;
      assert r == ClickUp(root, nodes[k].path);
    }
  }

  /** `clickNodeWithText`: collect the matching nodes, then try their walk ups in turn. */
  function ClickNodeWithText(root: Node, wanted: string): (r: Option<Path>)
    ensures r.Some? ==> AcceptsClickAt(root, r.value)
  {
    ClickAmongLands(root, NodesWithText(root, wanted));
    ClickAmong(NodesWithText(root, wanted), ClickUpFrom(root), 0)
  }

  /** What `clickNodeWithText` clicks is a matching node or one of its ancestors. */
  lemma ClickNodeWithTextLands(root: Node, wanted: string)
    requires ClickNodeWithText(root, wanted).Some?
    ensures exists l :: l in Walk(root, []) && LabelMatches(l.node, wanted) && ClickNodeWithText(root, wanted).value <= l.path
  {
    ClickAmongLands(root, NodesWithText(root, wanted));
  }

  /** `clickNodeWithText` is the one-pass search over the walk. */
  lemma ClickNodeWithTextIsFirstMatch(root: Node, wanted: string)
    ensures ClickNodeWithText(root, wanted) == ClickFirstMatch(Walk(root, []), LabelTest(wanted), ClickUpFrom(root), 0)
  {
    var all := Walk(root, []);
    assert all[0..] == all;
    ClickAmongFilter(all, LabelTest(wanted), ClickUpFrom(root), 0);
  }

  /**
   * What `clickNodeWithText` clicks is the walk up from the first matching node, in
   * document order, whose walk up finds a clickable.
   */
  lemma ClickNodeWithTextFirst(root: Node, wanted: string)
    requires ClickNodeWithText(root, wanted).Some?
    ensures exists k :: (0 <= k < |Walk(root, [])| && LabelMatches(Walk(root, [])[k].node, wanted) &&
      ClickNodeWithText(root, wanted) == ClickUp(root, Walk(root, [])[k].path) &&
      forall j :: 0 <= j < k && LabelMatches(Walk(root, [])[j].node, wanted) ==> ClickUp(root, Walk(root, [])[j].path).None?)
  {
    ClickNodeWithTextIsFirstMatch(root, wanted);
    var all := Walk(root, []);
    var f := LabelTest(wanted);
    var up := ClickUpFrom(root);
    var r := ClickFirstMatch(all, f, up, 0);
    var k :| 0 <= k < |all| && f(all[k].node) && r == up(all[k].path) &&
      forall j :: 0 <= j < k && f(all[j].node) ==> up(all[j].path).None?;
    assert LabelMatches(all[k].node, wanted) && r == ClickUp(root, all[k].path);
    forall j | 0 <= j < k && LabelMatches(all[j].node, wanted)
      ensures ClickUp(root, all[j].path).None?
    {
      assert f(all[j].node);
      assert up(all[j].path) == ClickUp(root, all[j].path);
    }
  }

  /** `clickNodeWithText` clicks nothing exactly when no matching node's walk up finds a clickable. */
  lemma ClickNodeWithTextNone(root: Node, wanted: string)
    ensures ClickNodeWithText(root, wanted).None? <==>
      forall l :: l in Walk(root, []) && LabelMatches(l.node, wanted) ==> ClickUp(root, l.path).None?
  {
    ClickNodeWithTextIsFirstMatch(root, wanted);
  }

  /** Line 355: the button labels tried, in this order. */
  const SendOkLabels: seq<string> := ["Send", "OK", "Submit", "Confirm", "SEND", "Ok"]

  /** The labels from the `i`-th on, tried in turn with `click` until one click lands. */
  function ClickLabels(labels: seq<string>, click: string -> Option<Path>, i: nat): (r: Option<Path>)
    requires i <= |labels|
    ensures r.Some? ==> exists k :: (i <= k < |labels| && r == click(labels[k]) &&
      forall j :: i <= j < k ==> click(labels[j]).None?)
    ensures r.None? <==> forall k :: i <= k < |labels| ==> click(labels[k]).None?
    decreases |labels| - i
  {
    if i == |labels| then None
    else match click(labels[i])
      case Some(q) => Some(q)
      case None => ClickLabels(labels, click, i + 1)
  }

  /** `clickNodeWithText` as a function of the label. */
  function ClickLabelFrom(root: Node): string -> Option<Path> {
    l => ClickNodeWithText(root, l)
  }

  /** `clickSendOrOk`: the labels "Send", "OK", "Submit", "Confirm", "SEND", "Ok" tried in turn. */
  function ClickSendOrOk(root: Node): (r: Option<Path>)
    ensures r.Some? ==> AcceptsClickAt(root, r.value)
    ensures ClickNodeWithText(root, "Send").Some? ==> r == ClickNodeWithText(root, "Send")
  {
    assert SendOkLabels[0] == "Send";
    ClickLabels(SendOkLabels, ClickLabelFrom(root), 0)
  }

  /** Trying labels in turn with `clickNodeWithText` clicks for the first label that finds something. */
  lemma ClickLabelsFirst(root: Node, labels: seq<string>)
    requires ClickLabels(labels, ClickLabelFrom(root), 0).Some?
    ensures exists k :: (0 <= k < |labels| && ClickLabels(labels, ClickLabelFrom(root), 0) == ClickNodeWithText(root, labels[k]) &&
      forall j :: 0 <= j < k ==> ClickNodeWithText(root, labels[j]).None?)
  {
    var click := ClickLabelFrom(root);
    var r := ClickLabels(labels, click, 0);
    var k :| 0 <= k < |labels| && r == click(labels[k]) && forall j :: 0 <= j < k ==> click(labels[j]).None?;
    assert r == ClickNodeWithText(root, labels[k]);
    forall j | 0 <= j < k
      ensures ClickNodeWithText(root, labels[j]).None?
    {
      assert click(labels[j]) == ClickNodeWithText(root, labels[j]);
    }
  }

  /**
   * What `clickSendOrOk` clicks is the click of the first label, in the order of the
   * list, for which `clickNodeWithText` finds something to click.
   */
  lemma ClickSendOrOkFirst(root: Node)
    requires ClickSendOrOk(root).Some?
    ensures exists k :: (0 <= k < |SendOkLabels| && ClickSendOrOk(root) == ClickNodeWithText(root, SendOkLabels[k]) &&
      forall j :: 0 <= j < k ==> ClickNodeWithText(root, SendOkLabels[j]).None?)
  {
    ClickLabelsFirst(root, SendOkLabels);
  }

  /** `clickSendOrOk` clicks nothing exactly when every label's `clickNodeWithText` finds nothing. */
  lemma ClickSendOrOkNone(root: Node)
    ensures ClickSendOrOk(root).None? <==> forall k :: 0 <= k < |SendOkLabels| ==> ClickNodeWithText(root, SendOkLabels[k]).None?
  {
    var click := ClickLabelFrom(root);
    assert ClickSendOrOk(root) == ClickLabels(SendOkLabels, click, 0);
    assert forall k :: 0 <= k < |SendOkLabels| ==> click(SendOkLabels[k]) == ClickNodeWithText(root, SendOkLabels[k]);
  }

  /**
   * What `clickSendOrOk` clicks is a node, or an ancestor of a node, whose trimmed text
   * or description equals one of the six labels exactly.
   */
  lemma ClickSendOrOkTarget(root: Node)
    requires ClickSendOrOk(root).Some?
    ensures exists k, l :: (0 <= k < |SendOkLabels| && l in Walk(root, []) &&
      (TrimmedText(l.node) == SendOkLabels[k] || TrimmedDescription(l.node) == SendOkLabels[k]) &&
      ClickSendOrOk(root).value <= l.path)
  {
    var r := ClickSendOrOk(root);
    ClickSendOrOkFirst(root);
    var k :| 0 <= k < |SendOkLabels| && r == ClickNodeWithText(root, SendOkLabels[k]);
    ClickNodeWithTextLands(root, SendOkLabels[k]);
    var l :| l in Walk(root, []) && LabelMatches(l.node, SendOkLabels[k]) && r.value <= l.path;
    ButtonLabelsMatchExactly(l.node, k);
  }

  /** The menu-prefix rule is for "1" alone, and no button wanted is "1": every wanted needs exact equality. */
  lemma ButtonLabelsMatchExactly(n: Node, k: nat)
    requires k < |SendOkLabels|
    ensures LabelMatches(n, SendOkLabels[k]) <==>
      TrimmedText(n) == SendOkLabels[k] || TrimmedDescription(n) == SendOkLabels[k]
  {
    assert |SendOkLabels[k]| >= 2;
  }

  lemma UnpaddedTextIsTrimmed(n: Node)
    requires n.text.Some? && Unpadded(n.text.value)
    ensures TrimmedText(n) == n.text.value
  {
  }

  lemma NumberedEntryMatchesOne(n: Node)
    requires TrimmedText(n) == "1. Send Money"
    ensures LabelMatches(n, "1")
  {
    assert TrimmedText(n)[..2] == "1.";
  }

  lemma TwoDigitEntryMissesOne(m: Node)
    requires TrimmedText(m) == "12. Other" && m.description.None?
    ensures !LabelMatches(m, "1")
  {
    assert TrimmedDescription(m) == "";
    assert TrimmedText(m)[1] == '2';
  }

  /** A numbered menu entry "1. Send Money" answers to "1", while "12. Other" does not. */
  lemma MenuDigitPrefix(n: Node, m: Node)
    requires n.text == Some("1. Send Money") && m.text == Some("12. Other") && m.description.None?
    ensures LabelMatches(n, "1")
    ensures !LabelMatches(m, "1")
  {
    var a, b := n.text.value, m.text.value;
    assert Unpadded(a) by { assert a[0] == '1' && a[|a| - 1] == 'y'; }
    assert Unpadded(b) by { assert b[0] == '1' && b[|b| - 1] == 'r'; }
    UnpaddedTextIsTrimmed(n);
    UnpaddedTextIsTrimmed(m);
    NumberedEntryMatchesOne(n);
    TwoDigitEntryMissesOne(m);
  }
}
