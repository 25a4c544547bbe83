/**
 * Session requests are dispatched by the longest registered prefix of their bundle; the callbacks are
 * kept in a list that is searched from the front (src/session/session.c:94-152, 277-358).
 */
module Dispatch {
  import opened Wrappers

  type Callback = int
  type Context = int

  /** A list entry; a callback of None is a null pointer. */
  datatype Entry = Entry(prefix: string, callback: Option<Callback>, context: Context)

  datatype Registry = Registry(entries: seq<Entry>, default: Option<Callback>, defaultContext: Context)

  /** One call of ela_session_set_callback; `memory` says whether an allocation would succeed. */
  datatype Call = Call(prefix: Option<string>, callback: Option<Callback>, context: Context, memory: bool)

  /** Where the search for `p` stops: at its entry, at the first shorter one, or at the end. */
  function Seek(entries: seq<Entry>, p: string): (i: nat)
    ensures i <= |entries|
    ensures forall j :: 0 <= j < i ==> |entries[j].prefix| >= |p| && entries[j].prefix != p
    ensures i < |entries| ==> entries[i].prefix == p || |entries[i].prefix| < |p|
  {
    if entries == [] || entries[0].prefix == p || |entries[0].prefix| < |p| then 0
    else 1 + Seek(entries[1..], p)
  }

  predicate Found(entries: seq<Entry>, p: string) {
    var i := Seek(entries, p);
    i < |entries| && entries[i].prefix == p
  }

  function Set(entries: seq<Entry>, e: Entry): seq<Entry> {
    var i := Seek(entries, e.prefix);
    if Found(entries, e.prefix) then
      if e.callback.Some? then entries[i := e] else entries[..i] + entries[i + 1..]
    else entries[..i] + [e] + entries[i..]
  }

  function Step(r: Registry, c: Call): (Registry, int) {
    if c.prefix.Some? && |c.prefix.value| > MAX_BUNDLE then (r, -1)
    else if c.prefix == None || c.prefix.value == "" then
      (r.(default := c.callback, defaultContext := if c.callback.Some? then c.context else 0), 0)
    else if !c.memory && !Found(r.entries, c.prefix.value) then (r, -1)
    else (r.(entries := Set(r.entries, Entry(c.prefix.value, c.callback, c.context))), 0)
  }

  function Run(r: Registry, calls: seq<Call>): Registry
    decreases calls
  {
    if calls == [] then r else Run(Step(r, calls[0]).0, calls[1..])
  }

  const EMPTY := Registry([], None, 0)

  // ---------------------------------------------------------------- the order of the list

  /** No prefix occurs twice, and longer prefixes come first. */
  predicate Ordered(entries: seq<Entry>) {
    && (forall i :: 0 <= i < |entries| ==> entries[i].prefix != "")
    && (forall i, j :: 0 <= i < j < |entries| ==>
          entries[i].prefix != entries[j].prefix && |entries[i].prefix| >= |entries[j].prefix|)
  }

  lemma FoundIffListed(entries: seq<Entry>, p: string)
    requires Ordered(entries)
    ensures Found(entries, p) <==> exists i :: 0 <= i < |entries| && entries[i].prefix == p
  {
  }

  lemma InsertKeepsOrder(entries: seq<Entry>, i: nat, e: Entry)
    requires Ordered(entries) && i <= |entries| && e.prefix != ""
    requires forall k :: 0 <= k < i ==> |entries[k].prefix| >= |e.prefix| && entries[k].prefix != e.prefix
    requires forall k :: i <= k < |entries| ==> |entries[k].prefix| < |e.prefix|
    ensures Ordered(entries[..i] + [e] + entries[i..])
  {
    var t := entries[..i] + [e] + entries[i..];
    forall j, k | 0 <= j < k < |t| ensures t[j].prefix != t[k].prefix && |t[j].prefix| >= |t[k].prefix| {
      assert k < i ==> t[k] == entries[k];
      assert k > i ==> t[k] == entries[k - 1];
      assert j < i ==> t[j] == entries[j];
      assert j > i ==> t[j] == entries[j - 1];
    }
  }

  lemma RemoveKeepsOrder(entries: seq<Entry>, i: nat)
    requires Ordered(entries) && i < |entries|
    ensures Ordered(entries[..i] + entries[i + 1..])
  {
    var t := entries[..i] + entries[i + 1..];
    forall j, k | 0 <= j < k < |t| ensures t[j].prefix != t[k].prefix && |t[j].prefix| >= |t[k].prefix| {
      assert t[j] == entries[if j < i then j else j + 1];
      assert t[k] == entries[if k < i then k else k + 1];
    }
  }

  lemma UpdateKeepsOrder(entries: seq<Entry>, i: nat, e: Entry)
    requires Ordered(entries) && i < |entries| && e.prefix == entries[i].prefix
    ensures Ordered(entries[i := e])
  {
    var t := entries[i := e];
    assert forall k :: 0 <= k < |t| ==> t[k].prefix == entries[k].prefix;
  }

  lemma SetKeepsOrder(entries: seq<Entry>, e: Entry)
    requires Ordered(entries) && e.prefix != ""
    ensures Ordered(Set(entries, e))
  {
    var i := Seek(entries, e.prefix);
    if !Found(entries, e.prefix) {
      InsertKeepsOrder(entries, i, e);
    } else if e.callback.Some? {
      UpdateKeepsOrder(entries, i, e);
    } else {
      RemoveKeepsOrder(entries, i);
    }
  }

  /** In every list that calls can make, no prefix occurs twice and longer ones come first. */
  lemma {:induction false} AlwaysOrdered(r: Registry, calls: seq<Call>)
    requires Ordered(r.entries)
    ensures Ordered(Run(r, calls).entries)
    decreases calls
  {
    if calls != [] {
      var c := calls[0];
      if c.prefix.Some? && c.prefix.value != "" {
        SetKeepsOrder(r.entries, Entry(c.prefix.value, c.callback, c.context));
      }
      AlwaysOrdered(Step(r, c).0, calls[1..]);
    }
  }

  // ---------------------------------------------------------------- the default callback

  predicate ForDefault(c: Call) { c.prefix == None || c.prefix.value == "" }

  lemma {:induction false} DefaultStays(r: Registry, calls: seq<Call>)
    requires forall i :: 0 <= i < |calls| ==> !ForDefault(calls[i])
    ensures Run(r, calls).default == r.default && Run(r, calls).defaultContext == r.defaultContext
    decreases calls
  {
    if calls != [] {
      DefaultStays(Step(r, calls[0]).0, calls[1..]);
    }
  }

  /** The default callback is the one of the latest call without prefix; a null pointer takes its context along. */
  lemma {:induction false} DefaultIsLatest(r: Registry, calls: seq<Call>, i: nat)
    requires i < |calls| && ForDefault(calls[i])
    requires forall j :: i < j < |calls| ==> !ForDefault(calls[j])
    ensures Run(r, calls).default == calls[i].callback
    ensures Run(r, calls).defaultContext == if calls[i].callback.Some? then calls[i].context else 0
    decreases calls
  {
    var s := Step(r, calls[0]).0;
    if i == 0 {
      DefaultStays(s, calls[1..]);
    } else {
      DefaultIsLatest(s, calls[1..], i - 1);
    }
  }

  // ---------------------------------------------------------------- what is registered

  /** What the application asked for: a callback with its context for each prefix it has not removed again. */
  type Wishes = map<string, (Callback, Context)>

  function Wish(w: Wishes, c: Call): Wishes {
    if c.prefix == None || c.prefix.value == "" then w
    else if c.callback == None then w - {c.prefix.value}
    else w[c.prefix.value := (c.callback.value, c.context)]
  }

  /** The calls that returned 0 count. */
  function WishAll(r: Registry, w: Wishes, calls: seq<Call>): Wishes
    decreases calls
  {
    if calls == [] then w
    else
      var (s, rc) := Step(r, calls[0]);
      WishAll(s, if rc == 0 then Wish(w, calls[0]) else w, calls[1..])
  }

  /** The entries with a callback are the wishes. */
  predicate Granted(entries: seq<Entry>, w: Wishes) {
    && (forall f <- entries :: f.callback.Some? ==> f.prefix in w && w[f.prefix] == (f.callback.value, f.context))
    && (forall p <- w :: Entry(p, Some(w[p].0), w[p].1) in entries)
  }

  lemma InsertMembers<T>(s: seq<T>, i: nat, e: T, f: T)
    requires i <= |s|
    ensures f in s[..i] + [e] + s[i..] <==> f == e || f in s
  {
    assert s == s[..i] + s[i..];
  }

  lemma UpdateMembers(s: seq<Entry>, i: nat, e: Entry, f: Entry)
    requires Ordered(s) && i < |s| && s[i].prefix == e.prefix
    ensures f in s[i := e] <==> if f.prefix == e.prefix then f == e else f in s
  {
    var t := s[i := e];
    assert t[i] == e;
    if f in s && f.prefix != e.prefix {
      var k :| 0 <= k < |s| && s[k] == f;
      assert t[k] == f;
    }
  }

  lemma RemoveMembers(s: seq<Entry>, i: nat, f: Entry)
    requires Ordered(s) && i < |s|
    ensures f in s[..i] + s[i + 1..] <==> f.prefix != s[i].prefix && f in s
  {
    assert s == s[..i] + [s[i]] + s[i + 1..];
  }

  /** The list after a call: the old entries of other prefixes, and the new one unless it was a removal. */
  lemma SetMembers(entries: seq<Entry>, e: Entry, f: Entry)
    requires Ordered(entries)
    ensures f in Set(entries, e) <==> (if f.prefix == e.prefix then f == e && (e.callback.Some? || !Found(entries, e.prefix)) else f in entries)
  {
    var i := Seek(entries, e.prefix);
    FoundIffListed(entries, e.prefix);
    if !Found(entries, e.prefix) {
      InsertMembers(entries, i, e, f);
    } else if e.callback.Some? {
      UpdateMembers(entries, i, e, f);
    } else {
      RemoveMembers(entries, i, f);
    }
  }

  lemma GrantedSet(entries: seq<Entry>, w: Wishes, e: Entry)
    requires Ordered(entries) && Granted(entries, w)
    ensures Granted(Set(entries, e), if e.callback.Some? then w[e.prefix := (e.callback.value, e.context)] else w - {e.prefix})
  {
    var t := Set(entries, e);
    var v := if e.callback.Some? then w[e.prefix := (e.callback.value, e.context)] else w - {e.prefix};
    forall f | f in t && f.callback.Some? ensures f.prefix in v && v[f.prefix] == (f.callback.value, f.context) {
      SetMembers(entries, e, f);
    }
    forall q | q in v ensures Entry(q, Some(v[q].0), v[q].1) in t {
      SetMembers(entries, e, Entry(q, Some(v[q].0), v[q].1));
    }
  }

  lemma GrantedStep(r: Registry, w: Wishes, c: Call)
    requires Ordered(r.entries) && Granted(r.entries, w)
    ensures var (s, rc) := Step(r, c);
            Ordered(s.entries) && Granted(s.entries, if rc == 0 then Wish(w, c) else w)
  {
    if c.prefix.Some? && c.prefix.value != "" {
      var e := Entry(c.prefix.value, c.callback, c.context);
      SetKeepsOrder(r.entries, e);
      GrantedSet(r.entries, w, e);
    }
  }

  /** In every run the entries with a callback are exactly what the application asked for. */
  lemma {:induction false} AlwaysGranted(r: Registry, w: Wishes, calls: seq<Call>)
    requires Ordered(r.entries) && Granted(r.entries, w)
    ensures Granted(Run(r, calls).entries, WishAll(r, w, calls))
    decreases calls
  {
    if calls != [] {
      GrantedStep(r, w, calls[0]);
      var (s, rc) := Step(r, calls[0]);
      AlwaysGranted(s, if rc == 0 then Wish(w, calls[0]) else w, calls[1..]);
    }
  }

  /**
   * A call fails, and then changes nothing, iff its prefix is longer than a bundle, or memory for a new
   * entry is wanted and there is none.
   */
  lemma CallFailsIff(r: Registry, c: Call)
    requires Ordered(r.entries)
    ensures var (s, rc) := Step(r, c);
            && (rc == 0 || rc == -1) && (rc == -1 ==> s == r)
            && (rc == -1 <==> c.prefix.Some? && (|c.prefix.value| > 511
                                || (c.prefix.value != "" && !c.memory && forall e <- r.entries :: e.prefix != c.prefix.value)))
  {
    if c.prefix.Some? {
      FoundIffListed(r.entries, c.prefix.value);
    }
  }

  // ---------------------------------------------------------------- dispatch

  /** The first entry whose prefix the bundle has. */
  function Pick(entries: seq<Entry>, bundle: string): Option<Entry> {
    if entries == [] then None
    else if entries[0].prefix <= bundle then Some(entries[0])
    else Pick(entries[1..], bundle)
  }

  /** First match is longest match. */
  lemma {:induction false} FirstIsLongest(entries: seq<Entry>, bundle: string, e: Entry)
    requires Ordered(entries)
    ensures Pick(entries, bundle) == Some(e) <==>
            e in entries && e.prefix <= bundle && forall f <- entries :: f.prefix <= bundle ==> |f.prefix| <= |e.prefix|
    decreases entries
  {
    if entries != [] {
      var first := entries[0];
      assert Ordered(entries[1..]);
      FirstIsLongest(entries[1..], bundle, e);
      assert forall f :: f in entries <==> f == first || f in entries[1..];
    }
  }

  lemma {:induction false} PickNothing(entries: seq<Entry>, bundle: string)
    ensures Pick(entries, bundle) == None <==> forall f <- entries :: !(f.prefix <= bundle)
  {
    if entries != [] {
      PickNothing(entries[1..], bundle);
      assert forall f :: f in entries <==> f == entries[0] || f in entries[1..];
    }
  }

  /** The callback the dispatcher takes from the list; None stands for the default callback. */
  function Choice(entries: seq<Entry>, bundle: string): Option<(Callback, Context)> {
    var e := Pick(entries, bundle);
    if e.Some? && e.value.callback.Some? then Some((e.value.callback.value, e.value.context)) else None
  }

  /** What the application expects: the wish with the longest prefix of the bundle, or else the default. */
  predicate Expected(w: Wishes, bundle: string, choice: Option<(Callback, Context)>) {
    match choice
    case None => forall p <- w :: !(p <= bundle)
    case Some(c) => exists p <- w :: p <= bundle && w[p] == c && forall q <- w :: q <= bundle ==> |q| <= |p|
  }

  /** Two prefixes of one bundle: the shorter is a prefix of the longer. */
  lemma PrefixesNest(p: string, q: string, bundle: string)
    requires p <= bundle && q <= bundle && |p| <= |q|
    ensures p <= q
  {
  }

  /** An entry without callback hides the wishes for shorter prefixes of its own. */
  predicate Hides(e: Entry, w: Wishes) {
    e.callback == None && exists p <- w :: p <= e.prefix
  }

  lemma ExpectedUnlessHidden(entries: seq<Entry>, w: Wishes, bundle: string)
    requires Ordered(entries) && Granted(entries, w)
    requires forall e <- entries :: !Hides(e, w)
    ensures Expected(w, bundle, Choice(entries, bundle))
  {
    PickNothing(entries, bundle);
    var pick := Pick(entries, bundle);
    if pick.Some? {
      var e := pick.value;
      FirstIsLongest(entries, bundle, e);
      forall p | p in w && p <= bundle ensures |p| <= |e.prefix| && p <= e.prefix {
        var f := Entry(p, Some(w[p].0), w[p].1);
        assert f in entries;
        PrefixesNest(p, e.prefix, bundle);
      }
      assert !Hides(e, w);
    } else {
      forall p | p in w ensures !(p <= bundle) {
        assert Entry(p, Some(w[p].0), w[p].1) in entries;
      }
    }
  }

  lemma HiddenIsMissed(entries: seq<Entry>, w: Wishes, e: Entry)
    requires Ordered(entries) && e in entries && Hides(e, w)
    ensures !Expected(w, e.prefix, Choice(entries, e.prefix))
  {
    FirstIsLongest(entries, e.prefix, e);
    assert forall f <- entries :: f.prefix <= e.prefix ==> |f.prefix| <= |e.prefix|;
    assert Pick(entries, e.prefix) == Some(e);
  }

  /**
   * After any calls whatsoever, dispatch is by longest registered prefix for all bundles iff no entry
   * without callback is left whose prefix begins with a registered one.
   */
  lemma LongestPrefixIff(calls: seq<Call>)
    ensures var entries := Run(EMPTY, calls).entries;
            var w := WishAll(EMPTY, map[], calls);
            (forall bundle :: Expected(w, bundle, Choice(entries, bundle))) <==> (forall e <- entries :: !Hides(e, w))
  {
    var entries := Run(EMPTY, calls).entries;
    var w := WishAll(EMPTY, map[], calls);
    AlwaysOrdered(EMPTY, calls);
    AlwaysGranted(EMPTY, map[], calls);
    if forall e <- entries :: !Hides(e, w) {
      forall bundle ensures Expected(w, bundle, Choice(entries, bundle)) {
        ExpectedUnlessHidden(entries, w, bundle);
      }
    } else {
      var e :| e in entries && Hides(e, w);
      HiddenIsMissed(entries, w, e);
    }
  }

  /** Only registered prefixes are removed. */
  predicate Careful(r: Registry, calls: seq<Call>)
    decreases calls
  {
    calls == [] || ((calls[0].callback == None && calls[0].prefix.Some? ==> Found(r.entries, calls[0].prefix.value) || calls[0].prefix.value == "")
                    && Careful(Step(r, calls[0]).0, calls[1..]))
  }

  lemma {:induction false} CarefulLeavesNoGaps(r: Registry, calls: seq<Call>)
    requires Ordered(r.entries) && Careful(r, calls) && forall e <- r.entries :: e.callback.Some?
    ensures forall e <- Run(r, calls).entries :: e.callback.Some?
    decreases calls
  {
    if calls != [] {
      var c := calls[0];
      var s := Step(r, c).0;
      if s.entries != r.entries {
        var e := Entry(c.prefix.value, c.callback, c.context);
        SetKeepsOrder(r.entries, e);
        forall f | f in s.entries ensures f.callback.Some? {
          SetMembers(r.entries, e, f);
        }
      }
      CarefulLeavesNoGaps(s, calls[1..]);
    }
  }

  /** So it is for every application that removes only what it has registered. */
  lemma LongestPrefix(calls: seq<Call>, bundle: string)
    requires Careful(EMPTY, calls)
    ensures Expected(WishAll(EMPTY, map[], calls), bundle, Choice(Run(EMPTY, calls).entries, bundle))
  {
    var entries := Run(EMPTY, calls).entries;
    var w := WishAll(EMPTY, map[], calls);
    CarefulLeavesNoGaps(EMPTY, calls);
    assert forall e <- entries :: !Hides(e, w);
    AlwaysOrdered(EMPTY, calls);
    AlwaysGranted(EMPTY, map[], calls);
    ExpectedUnlessHidden(entries, w, bundle);
  }

  /** Removing "ab", never registered, puts an entry before the one of "a". */
  lemma RemovalThatInserts(r: Registry, callback: Callback, context: Context)
    requires r.entries == [Entry("a", Some(callback), context)]
    ensures var s := Step(r, Call(Some("ab"), None, 0, true));
            s.1 == 0 && s.0.entries == [Entry("ab", None, 0), Entry("a", Some(callback), context)]
  {
    assert |r.entries[0].prefix| < |"ab"|;
    assert Seek(r.entries, "ab") == 0;
  }

  /** It takes the bundle "ab" away from the callback of "a". */
  lemma RemovalThatHides(callback: Callback, context: Context)
    ensures var r := Step(EMPTY, Call(Some("a"), Some(callback), context, true)).0;
            var s := Step(r, Call(Some("ab"), None, 0, true)).0;
            var w := Wish(Wish(map[], Call(Some("a"), Some(callback), context, true)), Call(Some("ab"), None, 0, true));
            Choice(s.entries, "ab") == None && !Expected(w, "ab", None)
  {
    var r := Step(EMPTY, Call(Some("a"), Some(callback), context, true)).0;
    assert r.entries == [Entry("a", Some(callback), context)];
    RemovalThatInserts(r, callback, context);
    var w := Wish(Wish(map[], Call(Some("a"), Some(callback), context, true)), Call(Some("ab"), None, 0, true));
    assert "a" != "ab" by {
      assert |"a"| != |"ab"|;
    }
    assert "a" in w && "a" <= "ab";
  }

  // ---------------------------------------------------------------- the code

  lemma SeekStep(entries: seq<Entry>, p: string, i: nat)
    requires i < |entries|
    ensures Seek(entries[i..], p) ==
            if entries[i].prefix == p || |entries[i].prefix| < |p| then 0 else 1 + Seek(entries[i + 1..], p)
  {
    assert entries[i..][0] == entries[i] && entries[i..][1..] == entries[i + 1..];
  }

  class SessionExtension {
    var callbacks: seq<Entry>
    var defaultCallback: Option<Callback>
    var defaultContext: Context

    function State(): Registry
      reads this
    {
      Registry(callbacks, defaultCallback, defaultContext)
    }

    constructor ()
      ensures State() == EMPTY
    {
      callbacks, defaultCallback, defaultContext := [], None, 0;
    }

    /** ela_session_set_callback, once the extension is there. */
    method SetCallback(c: Call) returns (rc: int)
      modifies this
      ensures (State(), rc) == Step(old(State()), c)
    {
      if c.prefix.Some? && |c.prefix.value| > MAX_BUNDLE {
        return -1;
      }
      if c.prefix == None || c.prefix.value == "" {
        defaultCallback := c.callback;
        defaultContext := if c.callback.Some? then c.context else 0;
        return 0;
      }
      var p := c.prefix.value;
      var e := Entry(p, c.callback, c.context);
      ghost var entries := callbacks;
      var idx := 0;
      while idx < |callbacks|
        invariant idx <= |callbacks| && State() == old(State()) && callbacks == entries
        invariant Seek(entries, p) == idx + Seek(entries[idx..], p)
      {
        var brc := callbacks[idx];
        SeekStep(entries, p, idx);
        if |brc.prefix| == |p| {
          if brc.prefix == p {
            assert Seek(entries, p) == idx && Found(entries, p);
            if c.callback.Some? {
              callbacks := callbacks[idx := brc.(callback := c.callback, context := c.context)];
            } else {
              callbacks := callbacks[..idx] + callbacks[idx + 1..];
            }
            return 0;
          }
        } else if |brc.prefix| < |p| {
          break;
        }
        idx := idx + 1;
      }
      assert Seek(entries, p) == idx && !Found(entries, p);
      if !c.memory {
        return -1;
      }
      callbacks := callbacks[..idx] + [e] + callbacks[idx..];
      rc := 0;
    }

    /** friend_invite: which callback is called, if any, and with which context. */
    method FriendInvite(bundle: Option<string>) returns (callback: Option<Callback>, context: Context)
      ensures var choice := if bundle == None || bundle.value == "" then None else Choice(callbacks, bundle.value);
              if choice.Some? then callback == Some(choice.value.0) && context == choice.value.1
              else callback == defaultCallback && context == defaultContext
    {
      if bundle == None || bundle.value == "" {
        return defaultCallback, defaultContext;
      }
      callback, context := None, 0;
      var i := 0;
      while i < |callbacks|
        invariant i <= |callbacks| && callback == None
        invariant Pick(callbacks, bundle.value) == Pick(callbacks[i..], bundle.value)
      {
        assert callbacks[i..][0] == callbacks[i] && callbacks[i..][1..] == callbacks[i + 1..];
        if callbacks[i].prefix <= bundle.value {
          callback, context := callbacks[i].callback, callbacks[i].context;
          break;
        }
        i := i + 1;
      }
      if callback == None {
        callback, context := defaultCallback, defaultContext;
      }
    }
  }
}
