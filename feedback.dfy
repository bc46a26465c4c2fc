/**
 * Fenced feedback: which `FencedFeedbackPanel` shows which feedback message.
 *
 * Messages are reported against a component (`Component.error`, `Component.info`) or against
 * the session (`Session.error`). A fenced feedback panel is built with a fence component: it
 * shows the messages reported inside its fence, and the fence stops those messages from
 * reaching any panel further out. A panel built without a fence is a catch-all: it shows the
 * session's messages and the messages of every component that no fence encloses. A filter set
 * on a panel narrows that panel's own view and nothing else.
 *
 * The rule is evaluated afresh against the current tree at every query: a component counts
 * as a fence exactly while some fenced panel naming it is part of the page, so removing,
 * replacing and restoring components takes effect at the next query.
 */
module FencedFeedback {
  import opened Wrappers
  import opened ComponentTree

  /** The severities of `FeedbackMessage`, from the least to the most severe. */
  datatype Level = Debug | Info | Success | Warning | Error | Fatal

  /** The numeric value `FeedbackMessage` gives each level. */
  function Rank(l: Level): nat
  {
    match l
    case Debug => 100
    case Info => 200
    case Success => 250
    case Warning => 300
    case Error => 400
    case Fatal => 500
  }

  /** A reported message: its reporter (none for a session message), level and text. */
  datatype Message = Message(reporter: Option<nat>, level: Level, text: string)

  /**
   * What the feedback rule needs to know about a component: whether it is a feedback panel,
   * and if so its fence (none for a catch-all) and the minimum level of its
   * `ErrorLevelFeedbackMessageFilter`, if one was set.
   */
  datatype Role = Plain | FeedbackPanel(fence: Option<nat>, filter: Option<Level>)

  /** The components marked as fences: the fences of the feedback panels that are part of `t`. */
  function Fences(t: Tree<Role>): set<nat>
  {
    (if t.data.FeedbackPanel? && t.data.fence.Some? then {t.data.fence.value} else {})
    + FencesAll(t.children)
  }

  function FencesAll(cs: seq<Tree<Role>>): set<nat>
  {
    if cs == [] then {} else Fences(cs[0]) + FencesAll(cs[1..])
  }

  /** The marks of a child list are those of each child. */
  lemma {:induction false} FencesOfChildren(cs: seq<Tree<Role>>, ss: seq<set<nat>>)
    requires |ss| == |cs| && forall i :: 0 <= i < |cs| ==> Fences(cs[i]) == ss[i]
    ensures FencesAll(cs) == UnionOf(ss)
  {
    if cs != [] {
      assert forall i :: 0 <= i < |cs| - 1 ==> cs[1..][i] == cs[i + 1] && ss[1..][i] == ss[i + 1];
      FencesOfChildren(cs[1..], ss[1..]);
    }
  }

  /** The fence of every fenced panel of the tree is marked. */
  lemma {:induction false} PanelFenceMarked(t: Tree<Role>, u: nat)
    requires Find(t, u).Some? && Find(t, u).value.data.FeedbackPanel?
    requires Find(t, u).value.data.fence.Some?
    ensures Find(t, u).value.data.fence.value in Fences(t)
    decreases t, 1
  {
    if t.uid != u {
      PanelFenceMarkedAll(t.children, u);
    }
  }

  lemma {:induction false} PanelFenceMarkedAll(cs: seq<Tree<Role>>, u: nat)
    requires FindAll(cs, u).Some? && FindAll(cs, u).value.data.FeedbackPanel?
    requires FindAll(cs, u).value.data.fence.Some?
    ensures FindAll(cs, u).value.data.fence.value in FencesAll(cs)
    decreases cs, 0
  {
    if Find(cs[0], u).Some? {
      PanelFenceMarked(cs[0], u);
    } else {
      PanelFenceMarkedAll(cs[1..], u);
    }
  }

  /**
   * The scope of the reporter `o` within `t`: the nearest marked fence among `o` and its
   * ancestors in `t`, or `inherited` (the scope `t` itself lies in) when there is none; none
   * at all when `o` is not part of `t`.
   */
  function ScopeOf(t: Tree<Role>, o: nat, fences: set<nat>, inherited: nat): Option<nat>
  {
    var here := if t.uid in fences then t.uid else inherited;
    if t.uid == o then Some(here) else ScopeOfAll(t.children, o, fences, here)
  }

  function ScopeOfAll(cs: seq<Tree<Role>>, o: nat, fences: set<nat>, inherited: nat): Option<nat>
  {
    if cs == [] then None
    else match ScopeOf(cs[0], o, fences, inherited)
      case Some(s) => Some(s)
      case None => ScopeOfAll(cs[1..], o, fences, inherited)
  }

  /**
   * The component whose feedback panels may show the messages of `o`: its nearest enclosing
   * marked fence, or the page itself when no fence encloses it.
   */
  function Scope(page: Tree<Role>, o: nat): Option<nat>
  {
    ScopeOf(page, o, Fences(page), page.uid)
  }

  /**
   * Whether a panel with fence `fence` (none: a catch-all, whose scope is the page) may show
   * `m` before its filter is applied: a session message only in a catch-all, a component's
   * message only in the panels of that component's scope.
   */
  function Candidate(page: Tree<Role>, fence: Option<nat>, m: Message): bool
  {
    match m.reporter
    case None => fence.None?
    case Some(o) => Scope(page, o) == Some(if fence.None? then page.uid else fence.value)
  }

  /**
   * A message reported by a component that is not part of the page (taken out of it, or never
   * added) is shown by no panel of the page, the catch-all included.
   */
  lemma UnattachedReporterUnseen(page: Tree<Role>, fence: Option<nat>, m: Message)
    requires m.reporter.Some? && m.reporter.value !in Uids(page)
    ensures !Candidate(page, fence, m)
  {
    ScopeFound(page, m.reporter.value, Fences(page), page.uid);
  }

  lemma {:induction false} ScopeFound(t: Tree<Role>, o: nat, fences: set<nat>, inherited: nat)
    ensures ScopeOf(t, o, fences, inherited).Some? <==> o in Uids(t)
    decreases t, 1
  {
    var here := if t.uid in fences then t.uid else inherited;
    ScopeFoundAll(t.children, o, fences, here);
  }

  lemma {:induction false} ScopeFoundAll(cs: seq<Tree<Role>>, o: nat, fences: set<nat>, inherited: nat)
    ensures ScopeOfAll(cs, o, fences, inherited).Some? <==> o in UidsAll(cs)
    decreases cs, 0
  {
    if cs != [] {
      ScopeFound(cs[0], o, fences, inherited);
      ScopeFoundAll(cs[1..], o, fences, inherited);
    }
  }

  /** `ErrorLevelFeedbackMessageFilter`: with a minimum set, only messages at least that severe pass. */
  predicate Passes(filter: Option<Level>, m: Message)
  {
    filter.None? || Rank(m.level) >= Rank(filter.value)
  }

  /** The messages, in report order, that a panel with role `role` shows. */
  function Collect(page: Tree<Role>, fence: Option<nat>, filter: Option<Level>, msgs: seq<Message>): (r: seq<Message>)
    ensures forall m :: m in r <==> m in msgs && Candidate(page, fence, m) && Passes(filter, m)
    ensures |r| <= |msgs|
  {
    if msgs == [] then []
    else
      (if Candidate(page, fence, msgs[0]) && Passes(filter, msgs[0]) then [msgs[0]] else [])
      + Collect(page, fence, filter, msgs[1..])
  }

  /** The messages the panel `panel` shows; a panel that is not part of the page shows none. */
  function Messages(page: Tree<Role>, msgs: seq<Message>, panel: nat): seq<Message>
  {
    match Find(page, panel)
    case None => []
    case Some(p) =>
      if p.data.FeedbackPanel? then Collect(page, p.data.fence, p.data.filter, msgs) else []
  }

  /** `FeedbackPanel.anyMessage()`. */
  predicate AnyMessage(page: Tree<Role>, msgs: seq<Message>, panel: nat)
  {
    Messages(page, msgs, panel) != []
  }

  /**
   * A panel of the page has a message exactly when some reported message is a candidate for
   * its fence and passes its filter.
   */
  lemma AnyMessageIff(page: Tree<Role>, msgs: seq<Message>, panel: nat)
    requires Find(page, panel).Some? && Find(page, panel).value.data.FeedbackPanel?
    ensures var d := Find(page, panel).value.data;
      AnyMessage(page, msgs, panel) <==> exists m :: m in msgs && Candidate(page, d.fence, m) && Passes(d.filter, m)
  {
    var d := Find(page, panel).value.data;
    var r := Collect(page, d.fence, d.filter, msgs);
    assert Messages(page, msgs, panel) == r;
    if r != [] {
      assert r[0] in r;
    }
  }

  /** `setFilter(new ErrorLevelFeedbackMessageFilter(level))` on the panel `panel`. */
  function WithFilter(page: Tree<Role>, panel: nat, level: Level): Tree<Role>
  {
    match Find(page, panel)
    case Some(p) =>
      if p.data.FeedbackPanel? then SetData(page, panel, p.data.(filter := Some(level))) else page
    case None => page
  }

  // ---------------------------------------------------------------------------------------
  // Nearest fence wins: the scope is the first marked fence met walking up from the reporter.
  // ---------------------------------------------------------------------------------------

  /**
   * Walking up the ancestor chain `chain` (root first, reporter last), the first marked fence
   * met, or `otherwise` if none is met.
   */
  function NearestMarked(chain: seq<nat>, fences: set<nat>, otherwise: nat): nat
    decreases |chain|
  {
    if chain == [] then otherwise
    else if chain[|chain| - 1] in fences then chain[|chain| - 1]
    else NearestMarked(chain[..|chain| - 1], fences, otherwise)
  }

  /**
   * The nearest marked fence is marked and lies on the chain with no marked fence below it;
   * `otherwise` is chosen only when nothing on the chain is marked.
   */
  lemma {:induction false} NearestMarkedIsNearest(chain: seq<nat>, fences: set<nat>, otherwise: nat)
    ensures var r := NearestMarked(chain, fences, otherwise);
      || (r == otherwise && forall i :: 0 <= i < |chain| ==> chain[i] !in fences)
      || (exists k :: 0 <= k < |chain| && chain[k] == r && r in fences
            && forall i :: k < i < |chain| ==> chain[i] !in fences)
    decreases |chain|
  {
    if chain != [] && chain[|chain| - 1] !in fences {
      var front := chain[..|chain| - 1];
      NearestMarkedIsNearest(front, fences, otherwise);
      var r := NearestMarked(front, fences, otherwise);
      assert NearestMarked(chain, fences, otherwise) == r;
      if r == otherwise && forall i :: 0 <= i < |front| ==> front[i] !in fences {
        forall i | 0 <= i < |chain| ensures chain[i] !in fences {
          if i < |front| {
            assert chain[i] == front[i];
          }
        }
      } else {
        var k :| 0 <= k < |front| && front[k] == r && r in fences
                 && forall i :: k < i < |front| ==> front[i] !in fences;
        assert chain[k] == r;
        forall i | k < i < |chain| ensures chain[i] !in fences {
          if i < |front| {
            assert chain[i] == front[i];
          }
        }
      }
    } else if chain != [] {
      assert chain[|chain| - 1] == NearestMarked(chain, fences, otherwise);
    }
  }

  lemma {:induction false} NearestMarkedPrepend(x: nat, s: seq<nat>, fences: set<nat>, otherwise: nat)
    ensures NearestMarked([x] + s, fences, otherwise)
         == NearestMarked(s, fences, if x in fences then x else otherwise)
    decreases |s|
  {
    if s != [] {
      assert ([x] + s)[..|[x] + s| - 1] == [x] + s[..|s| - 1];
      NearestMarkedPrepend(x, s[..|s| - 1], fences, otherwise);
    } else {
      assert ([x] + s)[..0] == [];
    }
  }

  /**
   * The scope computed by walking down the tree is the nearest marked fence on the reporter's
   * ancestor chain, recomputed from the root: the page when no fence encloses the reporter.
   */
  lemma {:induction false} ScopeIsNearestMarked(t: Tree<Role>, o: nat, fences: set<nat>, inherited: nat)
    requires o in Uids(t)
    ensures ScopeOf(t, o, fences, inherited) == Some(NearestMarked(ChainTo(t, o).value, fences, inherited))
    decreases t, 1
  {
    var here := if t.uid in fences then t.uid else inherited;
    if t.uid == o {
      assert [o][..0] == [];
    } else {
      ScopeIsNearestMarkedAll(t.children, o, fences, here);
      NearestMarkedPrepend(t.uid, ChainToAll(t.children, o).value, fences, inherited);
    }
  }

  lemma {:induction false} ScopeIsNearestMarkedAll(cs: seq<Tree<Role>>, o: nat, fences: set<nat>, inherited: nat)
    requires o in UidsAll(cs)
    ensures ScopeOfAll(cs, o, fences, inherited) == Some(NearestMarked(ChainToAll(cs, o).value, fences, inherited))
    decreases cs, 0
  {
    if o in Uids(cs[0]) {
      ScopeIsNearestMarked(cs[0], o, fences, inherited);
    } else {
      ScopeFound(cs[0], o, fences, inherited);
      ScopeIsNearestMarkedAll(cs[1..], o, fences, inherited);
    }
  }

  /**
   * A component's message reaches a catch-all exactly when no marked fence lies on its way up
   * to the page, and reaches a fenced panel exactly when that panel's fence is the first marked
   * fence on the way up.
   */
  lemma NearestFenceWins(page: Tree<Role>, o: nat, f: nat)
    requires UniqueUids(page) && o in Uids(page) && f != page.uid
    ensures var chain := ChainTo(page, o).value;
      && (Candidate(page, None, Message(Some(o), Info, "")) <==>
            forall i :: 1 <= i < |chain| ==> chain[i] !in Fences(page))
      && (Candidate(page, Some(f), Message(Some(o), Info, "")) <==>
            exists k :: 0 < k < |chain| && chain[k] == f && f in Fences(page)
                        && forall i :: k < i < |chain| ==> chain[i] !in Fences(page))
  {
    CatchAllWins(page, o);
    FencedWins(page, o, f);
  }

  lemma CatchAllWins(page: Tree<Role>, o: nat)
    requires UniqueUids(page) && o in Uids(page)
    ensures var chain := ChainTo(page, o).value;
      Candidate(page, None, Message(Some(o), Info, "")) <==>
        forall i :: 1 <= i < |chain| ==> chain[i] !in Fences(page)
  {
    var chain := ChainTo(page, o).value;
    var fs := Fences(page);
    ScopeIsNearestMarked(page, o, fs, page.uid);
    assert chain == [page.uid] + chain[1..];
    NearestMarkedPrepend(page.uid, chain[1..], fs, page.uid);
    NearestMarkedIsNearest(chain[1..], fs, page.uid);
    ChainAvoidsRoot(page, o);
    if forall i :: 1 <= i < |chain| ==> chain[i] !in fs {
      NearestMarkedNone(chain[1..], fs, page.uid);
    }
  }

  lemma FencedWins(page: Tree<Role>, o: nat, f: nat)
    requires UniqueUids(page) && o in Uids(page) && f != page.uid
    ensures var chain := ChainTo(page, o).value;
      Candidate(page, Some(f), Message(Some(o), Info, "")) <==>
        exists k :: 0 < k < |chain| && chain[k] == f && f in Fences(page)
                    && forall i :: k < i < |chain| ==> chain[i] !in Fences(page)
  {
    var chain := ChainTo(page, o).value;
    var fs := Fences(page);
    ScopeIsNearestMarked(page, o, fs, page.uid);
    assert chain == [page.uid] + chain[1..];
    NearestMarkedPrepend(page.uid, chain[1..], fs, page.uid);
    assert Scope(page, o) == Some(NearestMarked(chain[1..], fs, chain[0]));
    NearestBelowHead(chain, fs, f);
  }

  /** Below the head of a chain, the nearest marked fence is `f` exactly when `f` is the last marked one. */
  lemma NearestBelowHead(chain: seq<nat>, fs: set<nat>, f: nat)
    requires |chain| >= 1 && f != chain[0]
    ensures NearestMarked(chain[1..], fs, chain[0]) == f <==>
              exists k :: 0 < k < |chain| && chain[k] == f && f in fs
                          && forall i :: k < i < |chain| ==> chain[i] !in fs
  {
    var tail := chain[1..];
    if NearestMarked(tail, fs, chain[0]) == f {
      NearestMarkedIsNearest(tail, fs, chain[0]);
      var k :| 0 <= k < |tail| && tail[k] == f && f in fs
               && forall i :: k < i < |tail| ==> tail[i] !in fs;
      assert chain[k + 1] == f;
      assert forall i :: k + 1 < i < |chain| ==> chain[i] == tail[i - 1];
    }
    if exists k :: 0 < k < |chain| && chain[k] == f && f in fs
                   && forall i :: k < i < |chain| ==> chain[i] !in fs {
      var k :| 0 < k < |chain| && chain[k] == f && f in fs
               && forall i :: k < i < |chain| ==> chain[i] !in fs;
      assert forall i :: k - 1 < i < |tail| ==> tail[i] == chain[i + 1];
      NearestMarkedAt(tail, fs, chain[0], k - 1);
    }
  }

  /**
   * Two feedback panels that both may show a component's message share its scope: they have
   * the same fence, or one is a catch-all and the other fences the page itself.
   */
  lemma ScopesExclusive(page: Tree<Role>, fp: Option<nat>, fq: Option<nat>, m: Message)
    requires m.reporter.Some?
    requires Candidate(page, fp, m) && Candidate(page, fq, m)
    ensures fp == fq || (fp.None? && fq == Some(page.uid)) || (fq.None? && fp == Some(page.uid))
  {
  }

  lemma {:induction false} NearestMarkedNone(chain: seq<nat>, fences: set<nat>, otherwise: nat)
    requires forall i :: 0 <= i < |chain| ==> chain[i] !in fences
    ensures NearestMarked(chain, fences, otherwise) == otherwise
    decreases |chain|
  {
    if chain != [] {
      NearestMarkedNone(chain[..|chain| - 1], fences, otherwise);
    }
  }

  lemma {:induction false} NearestMarkedAt(chain: seq<nat>, fences: set<nat>, otherwise: nat, k: nat)
    requires k < |chain| && chain[k] in fences
    requires forall i :: k < i < |chain| ==> chain[i] !in fences
    ensures NearestMarked(chain, fences, otherwise) == chain[k]
    decreases |chain|
  {
    if k < |chain| - 1 {
      NearestMarkedAt(chain[..|chain| - 1], fences, otherwise, k);
    }
  }

  /** Below the root, no component on a chain is the root object again. */
  lemma {:induction false} ChainAvoidsRoot(t: Tree<Role>, o: nat)
    requires UniqueUids(t) && o in Uids(t)
    ensures var chain := ChainTo(t, o).value; forall i :: 1 <= i < |chain| ==> chain[i] != t.uid
  {
    if t.uid != o {
      var rest := ChainToAll(t.children, o).value;
      ChainWithin(t.children, o);
      assert ChainTo(t, o).value == [t.uid] + rest;
      forall i | 1 <= i < |rest| + 1
        ensures ([t.uid] + rest)[i] != t.uid
      {
        assert ([t.uid] + rest)[i] == rest[i - 1];
        assert rest[i - 1] in UidsAll(t.children);
      }
    }
  }

  lemma {:induction false} ChainWithin(cs: seq<Tree<Role>>, o: nat)
    requires o in UidsAll(cs)
    ensures forall i :: 0 <= i < |ChainToAll(cs, o).value| ==> ChainToAll(cs, o).value[i] in UidsAll(cs)
    decreases cs, 0
  {
    if o in Uids(cs[0]) {
      ChainWithinOne(cs[0], o);
      assert ChainToAll(cs, o) == ChainTo(cs[0], o);
    } else {
      ChainWithin(cs[1..], o);
      assert ChainToAll(cs, o) == ChainToAll(cs[1..], o);
      assert UidsAll(cs) == Uids(cs[0]) + UidsAll(cs[1..]);
    }
  }

  lemma {:induction false} ChainWithinOne(t: Tree<Role>, o: nat)
    requires o in Uids(t)
    ensures forall i :: 0 <= i < |ChainTo(t, o).value| ==> ChainTo(t, o).value[i] in Uids(t)
    decreases t, 1
  {
    if t.uid != o {
      var rest := ChainToAll(t.children, o).value;
      ChainWithin(t.children, o);
      assert ChainTo(t, o).value == [t.uid] + rest;
      forall i | 1 <= i < |rest| + 1
        ensures ([t.uid] + rest)[i] in Uids(t)
      {
        assert ([t.uid] + rest)[i] == rest[i - 1];
        assert rest[i - 1] in UidsAll(t.children);
      }
    }
  }

  // ---------------------------------------------------------------------------------------
  // The scope of the component at a known path.
  // ---------------------------------------------------------------------------------------

  /** The scope met walking down the path `p` from `t`, starting from the scope `inherited`. */
  function ScopeAlong(t: Tree<Role>, p: Path, fences: set<nat>, inherited: nat): nat
    decreases p
  {
    var here := if t.uid in fences then t.uid else inherited;
    if |p| == 0 || p[0] >= |t.children| then here
    else ScopeAlong(t.children[p[0]], p[1..], fences, here)
  }

  /** In a tree without repeated objects, the scope of a component depends only on its path. */
  lemma {:induction false} ScopeAtPath(t: Tree<Role>, p: Path, fences: set<nat>, inherited: nat)
    requires UniqueUids(t) && ValidPath(t, p)
    ensures ScopeOf(t, At(t, p).uid, fences, inherited) == Some(ScopeAlong(t, p, fences, inherited))
    decreases p
  {
    if |p| > 0 {
      var here := if t.uid in fences then t.uid else inherited;
      var u := At(t, p).uid;
      UniqueChild(t.children, p[0]);
      ScopeAtPath(t.children[p[0]], p[1..], fences, here);
      FindAtPath(t.children[p[0]], p[1..]);
      FindFound(t.children[p[0]], u);
      UidsOfChild(t.children, p[0]);
      ScopeInChild(t.children, p[0], u, fences, here);
    }
  }

  lemma {:induction false} ScopeInChild(cs: seq<Tree<Role>>, k: nat, o: nat, fences: set<nat>, inherited: nat)
    requires UniqueUidsAll(cs) && k < |cs| && o in Uids(cs[k])
    ensures ScopeOfAll(cs, o, fences, inherited) == ScopeOf(cs[k], o, fences, inherited)
    decreases k
  {
    if k > 0 {
      UidsOfChild(cs[1..], k - 1);
      ScopeFound(cs[0], o, fences, inherited);
      ScopeInChild(cs[1..], k - 1, o, fences, inherited);
    } else {
      ScopeFound(cs[0], o, fences, inherited);
    }
  }

  // ---------------------------------------------------------------------------------------
  // A filter narrows only its own panel's view.
  // ---------------------------------------------------------------------------------------

  lemma {:induction false} SetDataKeepsScope(t: Tree<Role>, u: nat, d: Role, o: nat, fences: set<nat>, inherited: nat)
    ensures ScopeOf(SetData(t, u, d), o, fences, inherited) == ScopeOf(t, o, fences, inherited)
    decreases t, 1
  {
    var here := if t.uid in fences then t.uid else inherited;
    SetDataKeepsScopeAll(t.children, u, d, o, fences, here);
  }

  lemma {:induction false} SetDataKeepsScopeAll(cs: seq<Tree<Role>>, u: nat, d: Role, o: nat, fences: set<nat>, inherited: nat)
    ensures ScopeOfAll(SetDataAll(cs, u, d), o, fences, inherited) == ScopeOfAll(cs, o, fences, inherited)
    decreases cs, 0
  {
    if cs != [] {
      var r := SetDataAll(cs, u, d);
      assert r[0] == SetData(cs[0], u, d) && r[1..] == SetDataAll(cs[1..], u, d);
      SetDataKeepsScope(cs[0], u, d, o, fences, inherited);
      SetDataKeepsScopeAll(cs[1..], u, d, o, fences, inherited);
    }
  }

  /** Changing a panel's filter (but not its fence) leaves the set of marked fences alone. */
  lemma {:induction false} SetFilterKeepsFences(t: Tree<Role>, u: nat, d: Role)
    requires Find(t, u).Some? ==> Find(t, u).value.data.FeedbackPanel? && d.FeedbackPanel? && d.fence == Find(t, u).value.data.fence
    requires UniqueUids(t)
    ensures Fences(SetData(t, u, d)) == Fences(t)
    decreases t, 1
  {
    FindAllFound(t.children, u);
    SetFilterKeepsFencesAll(t.children, u, d);
  }

  lemma {:induction false} SetFilterKeepsFencesAll(cs: seq<Tree<Role>>, u: nat, d: Role)
    requires FindAll(cs, u).Some? ==> FindAll(cs, u).value.data.FeedbackPanel? && d.FeedbackPanel? && d.fence == FindAll(cs, u).value.data.fence
    requires UniqueUidsAll(cs)
    ensures FencesAll(SetDataAll(cs, u, d)) == FencesAll(cs)
    decreases cs, 0
  {
    if cs != [] {
      var r := SetDataAll(cs, u, d);
      assert r[0] == SetData(cs[0], u, d) && r[1..] == SetDataAll(cs[1..], u, d);
      FindFound(cs[0], u);
      if u in Uids(cs[0]) {
        assert u !in UidsAll(cs[1..]);
        NoSuchUidNoChange(cs[1..], u, d);
        SetFilterKeepsFences(cs[0], u, d);
      } else {
        assert FindAll(cs[1..], u) == FindAll(cs, u);
        NoSuchUidNoChange([cs[0]], u, d);
        assert SetDataAll([cs[0]], u, d) == [SetData(cs[0], u, d)];
        SetFilterKeepsFencesAll(cs[1..], u, d);
      }
    }
  }

  lemma {:induction false} NoSuchUidNoChange(cs: seq<Tree<Role>>, u: nat, d: Role)
    requires u !in UidsAll(cs)
    ensures SetDataAll(cs, u, d) == cs
    decreases cs, 0
  {
    if cs != [] {
      NoSuchUidNoChangeOne(cs[0], u, d);
      NoSuchUidNoChange(cs[1..], u, d);
    }
  }

  lemma {:induction false} NoSuchUidNoChangeOne(t: Tree<Role>, u: nat, d: Role)
    requires u !in Uids(t)
    ensures SetData(t, u, d) == t
    decreases t, 1
  {
    NoSuchUidNoChange(t.children, u, d);
  }

  /** Other components keep their role when one panel's data is overwritten. */
  lemma {:induction false} SetDataFind(t: Tree<Role>, u: nat, d: Role, q: nat)
    requires q != u
    ensures Find(SetData(t, u, d), q).Some? == Find(t, q).Some?
    ensures Find(t, q).Some? ==> Find(SetData(t, u, d), q).value.data == Find(t, q).value.data
    decreases t, 1
  {
    SetDataFindAll(t.children, u, d, q);
  }

  lemma {:induction false} SetDataFindAll(cs: seq<Tree<Role>>, u: nat, d: Role, q: nat)
    requires q != u
    ensures FindAll(SetDataAll(cs, u, d), q).Some? == FindAll(cs, q).Some?
    ensures FindAll(cs, q).Some? ==> FindAll(SetDataAll(cs, u, d), q).value.data == FindAll(cs, q).value.data
    decreases cs, 0
  {
    if cs != [] {
      var r := SetDataAll(cs, u, d);
      assert r[0] == SetData(cs[0], u, d) && r[1..] == SetDataAll(cs[1..], u, d);
      SetDataFind(cs[0], u, d, q);
      SetDataFindAll(cs[1..], u, d, q);
    }
  }

  /**
   * Setting a filter on one panel changes what no other panel shows: candidacy depends on the
   * tree's shape and fences only, never on any panel's filter.
   */
  lemma FilterOnlyOwnPanel(page: Tree<Role>, msgs: seq<Message>, panel: nat, level: Level, other: nat)
    requires UniqueUids(page) && other != panel
    ensures Messages(WithFilter(page, panel, level), msgs, other) == Messages(page, msgs, other)
  {
    match Find(page, panel)
    case None =>
    case Some(p) =>
      if p.data.FeedbackPanel? {
        var d := p.data.(filter := Some(level));
        var page' := SetData(page, panel, d);
        SetFilterKeepsFences(page, panel, d);
        SetDataFind(page, panel, d, other);
        forall m: Message
          ensures Find(page, other).Some? && Find(page, other).value.data.FeedbackPanel? ==>
            Candidate(page', Find(page, other).value.data.fence, m) == Candidate(page, Find(page, other).value.data.fence, m)
        {
          if Find(page, other).Some? && m.reporter.Some? { SetDataKeepsScope(page, panel, d, m.reporter.value, Fences(page), page.uid); }
        }
        if Find(page, other).Some? && Find(page, other).value.data.FeedbackPanel? {
          CollectSame(page', page, Find(page, other).value.data.fence, Find(page, other).value.data.filter, msgs);
        }
      }
  }

  lemma {:induction false} CollectSame(a: Tree<Role>, b: Tree<Role>, fence: Option<nat>, filter: Option<Level>, msgs: seq<Message>)
    requires forall m :: Candidate(a, fence, m) == Candidate(b, fence, m)
    ensures Collect(a, fence, filter, msgs) == Collect(b, fence, filter, msgs)
  {
    if msgs != [] {
      CollectSame(a, b, fence, filter, msgs[1..]);
    }
  }

  /**
   * A filter hides from its own panel exactly the candidate messages below its level: the
   * panel shows the candidates that pass, in report order.
   */
  lemma {:induction false} FilterNarrowsOwnView(page: Tree<Role>, msgs: seq<Message>, panel: nat, level: Level)
    requires UniqueUids(page)
    requires Find(page, panel).Some? && Find(page, panel).value.data.FeedbackPanel?
    ensures var fence := Find(page, panel).value.data.fence;
      Messages(WithFilter(page, panel, level), msgs, panel) == Collect(page, fence, Some(level), msgs)
  {
    var p := Find(page, panel).value;
    var d := p.data.(filter := Some(level));
    var page' := SetData(page, panel, d);
    SetFilterKeepsFences(page, panel, d);
    SetDataFindSelf(page, panel, d);
    forall m: Message ensures Candidate(page', p.data.fence, m) == Candidate(page, p.data.fence, m) {
      if m.reporter.Some? { SetDataKeepsScope(page, panel, d, m.reporter.value, Fences(page), page.uid); }
    }
    CollectSame(page', page, p.data.fence, Some(level), msgs);
  }

  lemma {:induction false} SetDataFindSelf(t: Tree<Role>, u: nat, d: Role)
    requires Find(t, u).Some?
    ensures Find(SetData(t, u, d), u).Some? && Find(SetData(t, u, d), u).value.data == d
    decreases t, 1
  {
    if t.uid != u {
      SetDataFindSelfAll(t.children, u, d);
    }
  }

  lemma {:induction false} SetDataFindSelfAll(cs: seq<Tree<Role>>, u: nat, d: Role)
    requires FindAll(cs, u).Some?
    ensures FindAll(SetDataAll(cs, u, d), u).Some? && FindAll(SetDataAll(cs, u, d), u).value.data == d
    decreases cs, 0
  {
    var r := SetDataAll(cs, u, d);
    assert r[0] == SetData(cs[0], u, d) && r[1..] == SetDataAll(cs[1..], u, d);
    if Find(cs[0], u).Some? {
      SetDataFindSelf(cs[0], u, d);
    } else {
      SetDataFindNone(cs[0], u, d);
      SetDataFindSelfAll(cs[1..], u, d);
    }
  }

  lemma {:induction false} SetDataFindNone(t: Tree<Role>, u: nat, d: Role)
    requires Find(t, u).None?
    ensures Find(SetData(t, u, d), u).None?
  {
    FindFound(t, u);
    SetDataUids(t, u, d);
    FindFound(SetData(t, u, d), u);
  }

  // ---------------------------------------------------------------------------------------
  // The page as the tests drive it: a tree changed in place and a growing message store.
  // ---------------------------------------------------------------------------------------

  class Page {
    var tree: Tree<Role>
    var messages: seq<Message>

    constructor (t: Tree<Role>)
      ensures tree == t && messages == []
    {
      tree := t;
      messages := [];
    }

    /** `Component.error`/`info`/... on the component `reporter`. */
    method Report(reporter: nat, level: Level, text: string)
      modifies this
      ensures tree == old(tree)
      ensures messages == old(messages) + [Message(Some(reporter), level, text)]
    {
      messages := messages + [Message(Some(reporter), level, text)];
    }

    /** `Session.error`/`info`/...: a message that belongs to no component. */
    method ReportToSession(level: Level, text: string)
      modifies this
      ensures tree == old(tree)
      ensures messages == old(messages) + [Message(None, level, text)]
    {
      messages := messages + [Message(None, level, text)];
    }

    /** `FeedbackPanel.setFilter(new ErrorLevelFeedbackMessageFilter(level))`. */
    method SetFilter(panel: nat, level: Level)
      modifies this
      ensures tree == WithFilter(old(tree), panel, level) && messages == old(messages)
    {
      tree := WithFilter(tree, panel, level);
    }

    /** `Component.remove()`: fails for the page itself and for a component not in the page. */
    method Remove(u: nat) returns (r: Result<(), TreeError>)
      modifies this
      ensures messages == old(messages)
      ensures r.Success? <==> u in Uids(old(tree)) && u != old(tree).uid
      ensures r.Success? ==> tree == Detach(old(tree), u) && u !in Uids(tree)
      ensures r.Failure? ==> tree == old(tree) && r.error == NotAttached(u)
    {
      if u in Uids(tree) && u != tree.uid {
        DetachRemoves(tree, u);
        tree := Detach(tree, u);
        r := Result.Success(());
      } else {
        r := Failure(NotAttached(u));
      }
    }

    /**
     * `Component.replaceWith(replacement)`: the replacement must carry the same wicket id and
     * the replaced component must have a parent.
     */
    method ReplaceWith(u: nat, replacement: Tree<Role>) returns (r: Result<(), TreeError>)
      modifies this
      ensures messages == old(messages)
      ensures r.Success? <==> Find(old(tree), u).Some? && u != old(tree).uid
                              && Find(old(tree), u).value.id == replacement.id
      ensures r.Success? ==> tree == Swap(old(tree), u, replacement)
      ensures r.Failure? ==> tree == old(tree)
    {
      var found := Find(tree, u);
      if found.None? || u == tree.uid {
        r := Failure(NotAttached(u));
      } else if found.value.id != replacement.id {
        r := Failure(IdMismatch(replacement.id));
      } else {
        tree := Swap(tree, u, replacement);
        r := Result.Success(());
      }
    }

    /** `MarkupContainer.replace(child)` called on the container `container`. */
    method Replace(container: nat, child: Tree<Role>) returns (r: Result<(), TreeError>)
      modifies this
      ensures messages == old(messages)
      ensures r.Success? <==> Find(old(tree), container).Some?
                              && ReplaceChild(Find(old(tree), container).value, child).Success?
      ensures r.Success? ==> tree == Swap(old(tree), container,
                                          ReplaceChild(Find(old(tree), container).value, child).value)
      ensures r.Failure? ==> tree == old(tree)
    {
      var found := Find(tree, container);
      if found.None? {
        r := Failure(NotAttached(container));
      } else {
        var replaced := ReplaceChild(found.value, child);
        if replaced.Failure? {
          r := Failure(replaced.error);
        } else {
          tree := Swap(tree, container, replaced.value);
          r := Result.Success(());
        }
      }
    }

    /** `anyMessage()` of the panel `panel`, evaluated against the current tree and store. */
    function AnyMessageOf(panel: nat): (r: bool)
      reads this
      ensures Find(tree, panel).None? ==> !r
      ensures Find(tree, panel).Some? && !Find(tree, panel).value.data.FeedbackPanel? ==> !r
      ensures Find(tree, panel).Some? && Find(tree, panel).value.data.FeedbackPanel? ==>
                var d := Find(tree, panel).value.data;
                (r <==> exists m :: m in messages && Candidate(tree, d.fence, m) && Passes(d.filter, m))
    {
      if Find(tree, panel).Some? && Find(tree, panel).value.data.FeedbackPanel? then
        AnyMessageIff(tree, messages, panel);
        AnyMessage(tree, messages, panel)
      else false
    }
  }
}
