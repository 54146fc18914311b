// The two gates of src/sqlite.rs that decide which rows a reader may see, each in both forms:
// as the row test in code and as the WHERE fragment in SQL.
module Visibility {
  import opened Records

  // A reader: the scopes it may read (None: all) and the agent whose tree it may see (None: all).
  datatype View = View(scopes: Option<set<string>>, agent: Option<string>)

  const EVERYONE := View(None, None)

  // ---- ASCII case and UTF-8 widths ----

  function Lower(c: char): char {
    if 'A' <= c <= 'Z' then c - 'A' + 'a' else c
  }

  function LowerAll(s: string): (r: string)
    ensures |r| == |s|
    ensures forall k :: 0 <= k < |s| ==> r[k] == Lower(s[k])
  {
    seq(|s|, k requires 0 <= k < |s| => Lower(s[k]))
  }

  function Width(c: char): nat {
    if c as int < 0x80 then 1 else if c as int < 0x800 then 2 else if c as int < 0x1_0000 then 3 else 4
  }

  // The prefix of `s` that is `n` bytes long, if a character ends there.
  function BytePrefix(s: string, n: nat): (r: Option<string>)
    ensures r.Some? ==> r.value <= s
  {
    if n == 0 then Some("")
    else if s == "" || Width(s[0]) > n then None
    else match BytePrefix(s[1..], n - Width(s[0]))
      case None => None
      case Some(p) => Some([s[0]] + p)
  }

  // ---- The agent gate ----

  const ROOT := "agents/"

  function FirstSegment(s: string): string {
    if s == "" || s[0] == '/' then "" else [s[0]] + FirstSegment(s[1..])
  }

  // The owner of a namespace under the agents tree; the byte slice makes a name whose seventh
  // byte is inside a character fall outside the tree.
  function SplitAgentsTree(ns: string): Option<string> {
    match BytePrefix(ns, |ROOT|)
    case None => None
    case Some(p) =>
      if LowerAll(p) == LowerAll(ROOT) then Some(FirstSegment(ns[|p|..])) else None
  }

  predicate NsOk(agent: string, ns: string) {
    match SplitAgentsTree(ns)
    case None => true
    case Some(owner) => LowerAll(owner) == LowerAll(agent)
  }

  function Substr(s: string, n: nat): string {
    if n <= |s| then s[..n] else s
  }

  predicate AgentTreeSql(agent: string, ns: string) {
    var own := ROOT + LowerAll(agent);
    var ownTree := own + "/";
    || Substr(LowerAll(ns), 7) != ROOT
    || LowerAll(ns) == own
    || Substr(LowerAll(ns), |ownTree|) == ownTree
  }

  // ---- Both gates together ----

  predicate ScopeOk(view: View, scope: string) {
    view.scopes.None? || scope == "" || scope in view.scopes.value
  }

  predicate RowOk(view: View, e: Entry) {
    ScopeOk(view, e.scope) && (view.agent.Some? ==> NsOk(view.agent.value, e.namespace))
  }

  predicate SqlOk(view: View, e: Entry) {
    && (view.scopes.Some? ==> e.scope == "" || e.scope in view.scopes.value)
    && (view.agent.Some? ==> AgentTreeSql(view.agent.value, e.namespace))
  }

  // ---- The SQL gate admits exactly what the row gate admits ----

  lemma {:induction false} AsciiPrefix(s: string, n: nat)
    requires n <= |s| && forall k :: 0 <= k < n ==> Width(s[k]) == 1
    ensures BytePrefix(s, n) == Some(s[..n])
  {
    if n > 0 {
      AsciiPrefix(s[1..], n - 1);
      assert [s[0]] + s[1..][..n - 1] == s[..n];
    }
  }

  predicate InTree(ns: string) {
    7 <= |ns| && LowerAll(ns[..7]) == ROOT
  }

  lemma LowerRoot()
    ensures |ROOT| == 7 && LowerAll(ROOT) == ROOT && forall k :: 0 <= k < 7 ==> Width(ROOT[k]) == 1
  {
  }

  lemma SplitIsTree(ns: string)
    ensures SplitAgentsTree(ns) == if InTree(ns) then Some(FirstSegment(ns[7..])) else None
  {
    LowerRoot();
    if InTree(ns) {
      forall k | 0 <= k < 7 ensures Width(ns[k]) == 1 {
        assert LowerAll(ns[..7])[k] == Lower(ns[..7][k]) == ROOT[k];
      }
      AsciiPrefix(ns, 7);
    }
  }

  lemma {:induction false} FirstSegmentIs(s: string, a: string)
    requires '/' !in a
    ensures FirstSegment(s) == a <==> s == a || (|a| < |s| && s[..|a|] == a && s[|a|] == '/')
  {
    if s != "" && s[0] != '/' && a != "" && a[0] == s[0] {
      FirstSegmentIs(s[1..], a[1..]);
      assert s == [s[0]] + s[1..] && a == [a[0]] + a[1..];
      if |a| < |s| { assert s[..|a|] == [s[0]] + s[1..][..|a| - 1]; }
    }
  }

  lemma {:induction false} FirstSegmentLower(s: string)
    ensures LowerAll(FirstSegment(s)) == FirstSegment(LowerAll(s)) && '/' !in FirstSegment(s)
  {
    if s != "" {
      assert LowerAll(s)[1..] == LowerAll(s[1..]);
      FirstSegmentLower(s[1..]);
      if s[0] != '/' {
        assert LowerAll(FirstSegment(s)) == [Lower(s[0])] + LowerAll(FirstSegment(s[1..]));
      }
    }
  }

  lemma SqlInTree(agent: string, ns: string)
    requires InTree(ns)
    ensures var rest, a := LowerAll(ns[7..]), LowerAll(agent);
      AgentTreeSql(agent, ns) <==> rest == a || (|a| < |rest| && rest[..|a|] == a && rest[|a|] == '/')
  {
    LowerRoot();
    var l, rest, a := LowerAll(ns), LowerAll(ns[7..]), LowerAll(agent);
    assert l[..7] == LowerAll(ns[..7]);
    assert l == ROOT + rest;
    var tree := ROOT + a + "/";
    if |tree| <= |l| {
      assert l[..|tree|] == ROOT + rest[..|a| + 1];
      assert rest[..|a| + 1] == rest[..|a|] + [rest[|a|]];
      assert tree == ROOT + (a + "/");
    }
  }

  lemma GatesAgreeOn(agent: string, ns: string)
    requires '/' !in agent
    ensures NsOk(agent, ns) <==> AgentTreeSql(agent, ns)
  {
    SplitIsTree(ns);
    LowerRoot();
    if InTree(ns) {
      assert '/' !in LowerAll(agent);
      FirstSegmentLower(ns[7..]);
      FirstSegmentIs(LowerAll(ns[7..]), LowerAll(agent));
      SqlInTree(agent, ns);
    } else if 7 <= |ns| {
      assert LowerAll(ns)[..7] == LowerAll(ns[..7]);
    }
  }

  lemma SlashBreaksSegment(agent: string)
    requires '/' in agent
    ensures LowerAll(FirstSegment(agent)) != LowerAll(agent)
  {
    FirstSegmentLower(agent);
    var k :| 0 <= k < |agent| && agent[k] == '/';
    if |FirstSegment(agent)| == |agent| {
      assert FirstSegment(agent)[k] != '/';
      assert LowerAll(FirstSegment(agent))[k] != LowerAll(agent)[k];
    }
  }

  lemma GatesDisagreeOn(agent: string)
    requires '/' in agent
    ensures AgentTreeSql(agent, ROOT + agent) && !NsOk(agent, ROOT + agent)
  {
    LowerRoot();
    var ns := ROOT + agent;
    assert ns[..7] == ROOT && ns[7..] == agent;
    SplitIsTree(ns);
    SqlInTree(agent, ns);
    SlashBreaksSegment(agent);
  }

  // The two forms of the agent gate admit the same namespaces exactly when the label has no '/'.
  lemma GatesAgree(agent: string)
    ensures (forall ns :: NsOk(agent, ns) <==> AgentTreeSql(agent, ns)) <==> '/' !in agent
  {
    if '/' in agent {
      GatesDisagreeOn(agent);
    } else {
      forall ns ensures NsOk(agent, ns) <==> AgentTreeSql(agent, ns) { GatesAgreeOn(agent, ns); }
    }
  }

  // Labels are issued over [a-z0-9_-].
  predicate Canonical(view: View) {
    view.agent.Some? ==> '/' !in view.agent.value
  }

  lemma SqlIsRowGate(view: View, e: Entry)
    requires Canonical(view)
    ensures SqlOk(view, e) <==> RowOk(view, e)
  {
    if view.agent.Some? { GatesAgreeOn(view.agent.value, e.namespace); }
  }
}
