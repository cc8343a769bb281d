/**
 The handover index: every delegation is filed under up to four keys, "squad|agent" with either
 part left open, so that reading one key replaces filtering the delegations. The report reads the
 key of its filter, and the key of everything where that one is absent.
 */
module HandoverIndex {
  datatype Row = Row(squad: string, from: string, to: string, cost: real, observed: string)

  datatype Edge = Edge(childCost: real, observedAt: string)

  /** The nested dictionaries, addressed by their three keys at once. */
  datatype Slot = Slot(key: string, from: string, to: string)

  type Graph = map<Slot, seq<Edge>>

  /** One key of the index, read at two agents. */
  function Lookup(g: Graph, s: Slot): seq<Edge> {
    if s in g then g[s] else []
  }

  function Append(g: Graph, s: Slot, e: Edge): (r: Graph)
    ensures forall t :: Lookup(r, t) == if t == s then Lookup(g, s) + [e] else Lookup(g, t)
  {
    g[s := Lookup(g, s) + [e]]
  }

  function Key(squad: string, agent: string): string {
    squad + "|" + agent
  }

  // ----- filtering, the reference

  /** Rows without both ends are dropped; an empty squad or agent selects every one. */
  predicate Selects(r: Row, squad: string, agent: string, from: string, to: string) {
    && r.from != "" && r.to != "" && r.from == from && r.to == to
    && (squad == "" || r.squad == squad)
    && (agent == "" || r.from == agent)
  }

  function Selected(rows: seq<Row>, squad: string, agent: string, from: string, to: string): seq<Edge> {
    if rows == [] then []
    else
      var init, last := Selected(rows[..|rows| - 1], squad, agent, from, to), rows[|rows| - 1];
      if Selects(last, squad, agent, from, to) then init + [Edge(last.cost, last.observed)] else init
  }

  // ----- the index

  function Filed(g: Graph, r: Row): Graph {
    if r.from == "" || r.to == "" then g
    else
      var e := Edge(r.cost, r.observed);
      var all := Append(g, Slot("|", r.from, r.to), e);
      var squads := if r.squad == "" then all
                    else Append(Append(all, Slot(r.squad + "|", r.from, r.to), e),
                                Slot(r.squad + "|" + r.from, r.from, r.to), e);
      Append(squads, Slot("|" + r.from, r.from, r.to), e)
  }

  function Indexed(rows: seq<Row>): Graph {
    if rows == [] then map[] else Filed(Indexed(rows[..|rows| - 1]), rows[|rows| - 1])
  }

  method ComputeHandoverGraph(rows: seq<Row>) returns (graph: Graph)
    ensures graph == Indexed(rows)
  {
    graph := map[];
    for i := 0 to |rows|
      invariant graph == Indexed(rows[..i])
    {
      assert rows[..i + 1][..i] == rows[..i];
      var r := rows[i];
      if r.from != "" && r.to != "" {
        var edge := Edge(r.cost, r.observed);
        graph := Append(graph, Slot("|", r.from, r.to), edge);
        if r.squad != "" {
          graph := Append(graph, Slot(r.squad + "|", r.from, r.to), edge);
          graph := Append(graph, Slot(r.squad + "|" + r.from, r.from, r.to), edge);
        }
        graph := Append(graph, Slot("|" + r.from, r.from, r.to), edge);
      }
    }
    assert rows[..|rows|] == rows;
  }

  // ----- the keys tell selections apart

  /** One of the two squads is free of the separator, and in the other key it has the same place. */
  predicate Readable(s: string, a: string, t: string) {
    '|' !in s && ('|' !in a || '|' !in t)
  }

  lemma KeyInjective(s: string, a: string, t: string, b: string)
    requires Readable(s, a, t)
    ensures Key(s, a) == Key(t, b) <==> s == t && a == b
  {
    if Key(s, a) == Key(t, b) {
      SeparatorAt(s, a);
      SeparatorAt(t, b);
      assert s == Key(s, a)[..|s|] && t == Key(t, b)[..|t|];
      assert a == Key(s, a)[|s| + 1..] && b == Key(t, b)[|t| + 1..];
    }
  }

  /** Where the separators of a key stand. */
  lemma SeparatorAt(s: string, a: string)
    ensures Key(s, a)[|s|] == '|'
    ensures forall i :: 0 <= i < |s| ==> Key(s, a)[i] == s[i]
    ensures forall i :: |s| < i < |Key(s, a)| ==> Key(s, a)[i] == a[i - |s| - 1]
  {
  }

  lemma KeyForms(squad: string, from: string)
    ensures "|" == Key("", "") && squad + "|" == Key(squad, "") && squad + "|" + from == Key(squad, from)
    ensures "|" + from == Key("", from)
  {
  }

  lemma FiledAdds(g: Graph, r: Row, squad: string, agent: string, from: string, to: string)
    requires Readable(squad, agent, r.squad)
    ensures Lookup(Filed(g, r), Slot(Key(squad, agent), from, to)) ==
            Lookup(g, Slot(Key(squad, agent), from, to))
            + if Selects(r, squad, agent, from, to) then [Edge(r.cost, r.observed)] else []
  {
    KeyForms(r.squad, r.from);
    KeyInjective(squad, agent, "", "");
    KeyInjective(squad, agent, r.squad, "");
    KeyInjective(squad, agent, r.squad, r.from);
    KeyInjective(squad, agent, "", r.from);
  }

  lemma UnfiledKept(g: Graph, r: Row)
    requires r.from == "" || r.to == ""
    ensures Filed(g, r) == g && forall s, a, f, t :: !Selects(r, s, a, f, t)
  {
  }

  /**
   Each key holds, in order, exactly the delegations its squad and agent select: always when
   neither name holds the separator, and otherwise when no filed squad's name does.
   */
  lemma {:induction false} IndexIsFiltering(rows: seq<Row>, squad: string, agent: string, from: string, to: string)
    requires '|' !in squad && ('|' !in agent || PlainSquads(rows))
    ensures Lookup(Indexed(rows), Slot(Key(squad, agent), from, to)) == Selected(rows, squad, agent, from, to)
  {
    if rows != [] {
      var init, last := rows[..|rows| - 1], rows[|rows| - 1];
      IndexIsFiltering(init, squad, agent, from, to);
      if last.from == "" || last.to == "" {
        UnfiledKept(Indexed(init), last);
      } else {
        assert last in rows;
        FiledAdds(Indexed(init), last, squad, agent, from, to);
      }
    }
  }

  /** No delegation with both ends has the separator in its squad's name. */
  predicate PlainSquads(rows: seq<Row>) {
    forall r :: r in rows && r.from != "" && r.to != "" ==> '|' !in r.squad
  }

  ghost predicate Faithful(rows: seq<Row>) {
    forall squad, agent, from, to :: '|' !in squad ==>
      Lookup(Indexed(rows), Slot(Key(squad, agent), from, to)) == Selected(rows, squad, agent, from, to)
  }

  /** Reads of one key agree with filtering, whatever the agent's name, exactly on plain squad names. */
  lemma IndexFaithfulExactly(rows: seq<Row>)
    ensures Faithful(rows) <==> PlainSquads(rows)
  {
    if PlainSquads(rows) {
      forall squad, agent, from, to | '|' !in squad
        ensures Lookup(Indexed(rows), Slot(Key(squad, agent), from, to)) == Selected(rows, squad, agent, from, to)
      {
        IndexIsFiltering(rows, squad, agent, from, to);
      }
    }
    if r :| r in rows && r.from != "" && r.to != "" && '|' in r.squad {
      var squad, rest := FirstSeparator(r.squad);
      SeparatorCollides(rows, r, squad, rest);
    }
  }

  lemma {:induction false} FirstSeparator(s: string) returns (head: string, rest: string)
    requires '|' in s
    ensures '|' !in head && s == head + "|" + rest
  {
    if s[0] == '|' {
      head, rest := "", s[1..];
    } else {
      head, rest := FirstSeparator(s[1..]);
      assert s == [s[0]] + s[1..];
      head := [s[0]] + head;
    }
  }

  /**
   A squad whose name holds the separator answers a lookup of the squad named before it, for an
   agent whose name holds the rest; filtering finds nothing there.
   */
  lemma SeparatorCollides(rows: seq<Row>, r: Row, squad: string, rest: string)
    requires r in rows && r.from != "" && r.to != "" && r.squad == squad + "|" + rest
    ensures Lookup(Indexed(rows), Slot(Key(squad, rest + "|" + r.from), r.from, r.to)) != []
    ensures Selected(rows, squad, rest + "|" + r.from, r.from, r.to) == []
  {
    assert Key(squad, rest + "|" + r.from) == r.squad + "|" + r.from;
    FiledStays(rows, r);
    NoneSelected(rows, squad, rest + "|" + r.from, r.from, r.to);
  }

  lemma {:induction false} FiledStays(rows: seq<Row>, r: Row)
    requires r in rows && r.squad != "" && r.from != "" && r.to != ""
    ensures Lookup(Indexed(rows), Slot(r.squad + "|" + r.from, r.from, r.to)) != []
  {
    var init, last := rows[..|rows| - 1], rows[|rows| - 1];
    var slot := Slot(r.squad + "|" + r.from, r.from, r.to);
    FiledGrows(Indexed(init), last, slot);
    if last == r {
      FiledUnderBoth(Indexed(init), r);
    } else {
      FiledStays(init, r);
    }
  }

  lemma FiledGrows(g: Graph, r: Row, s: Slot)
    ensures |Lookup(g, s)| <= |Lookup(Filed(g, r), s)|
  {
  }

  lemma FiledUnderBoth(g: Graph, r: Row)
    requires r.squad != "" && r.from != "" && r.to != ""
    ensures Lookup(Filed(g, r), Slot(r.squad + "|" + r.from, r.from, r.to)) != []
  {
  }

  lemma {:induction false} NoneSelected(rows: seq<Row>, squad: string, agent: string, from: string, to: string)
    requires agent != "" && agent != from
    ensures Selected(rows, squad, agent, from, to) == []
  {
    if rows != [] { NoneSelected(rows[..|rows| - 1], squad, agent, from, to); }
  }

  // ----- the report's lookup

  predicate HasKey(g: Graph, key: string) {
    exists s :: s in g && s.key == key
  }

  /** The report's `handover_graph[key] || handover_graph["|"]`, read at two agents. */
  function Reported(g: Graph, squad: string, agent: string, from: string, to: string): seq<Edge> {
    if HasKey(g, Key(squad, agent)) then Lookup(g, Slot(Key(squad, agent), from, to))
    else Lookup(g, Slot("|", from, to))
  }

  /** Does the filter select any delegation? */
  predicate Matches(rows: seq<Row>, squad: string, agent: string) {
    exists r :: r in rows && Selects(r, squad, agent, r.from, r.to)
  }

  lemma {:induction false} SelectedSome(rows: seq<Row>, squad: string, agent: string, from: string, to: string)
    ensures Selected(rows, squad, agent, from, to) != [] <==>
            exists r :: r in rows && Selects(r, squad, agent, from, to)
  {
    if rows != [] {
      var init, last := rows[..|rows| - 1], rows[|rows| - 1];
      SelectedSome(init, squad, agent, from, to);
      assert rows == init + [last];
    }
  }

  /** No key is filed without a delegation. */
  lemma {:induction false} NothingEmpty(rows: seq<Row>)
    ensures forall s :: s in Indexed(rows) ==> Indexed(rows)[s] != []
  {
    if rows != [] {
      NothingEmpty(rows[..|rows| - 1]);
      FiledNonEmpty(Indexed(rows[..|rows| - 1]), rows[|rows| - 1]);
    }
  }

  lemma FiledNonEmpty(g: Graph, r: Row)
    requires forall s :: s in g ==> g[s] != []
    ensures forall s :: s in Filed(g, r) ==> Filed(g, r)[s] != []
  {
  }

  /** A key stands in the index exactly when its filter selects something. */
  lemma KeyMeansMatch(rows: seq<Row>, squad: string, agent: string)
    requires '|' !in squad && ('|' !in agent || PlainSquads(rows))
    ensures HasKey(Indexed(rows), Key(squad, agent)) <==> Matches(rows, squad, agent)
  {
    var g := Indexed(rows);
    NothingEmpty(rows);
    if s :| s in g && s.key == Key(squad, agent) {
      assert Lookup(g, Slot(Key(squad, agent), s.from, s.to)) != [];
      IndexIsFiltering(rows, squad, agent, s.from, s.to);
      SelectedSome(rows, squad, agent, s.from, s.to);
    }
    if r :| r in rows && Selects(r, squad, agent, r.from, r.to) {
      IndexIsFiltering(rows, squad, agent, r.from, r.to);
      SelectedSome(rows, squad, agent, r.from, r.to);
      assert Slot(Key(squad, agent), r.from, r.to) in g;
    }
  }

  /** What the report shows: the selected delegations, or all of them when none is selected. */
  lemma ReportShows(rows: seq<Row>, squad: string, agent: string, from: string, to: string)
    requires '|' !in squad && ('|' !in agent || PlainSquads(rows))
    ensures Reported(Indexed(rows), squad, agent, from, to) ==
            if Matches(rows, squad, agent) then Selected(rows, squad, agent, from, to)
            else Selected(rows, "", "", from, to)
  {
    KeyMeansMatch(rows, squad, agent);
    IndexIsFiltering(rows, squad, agent, from, to);
    assert Key("", "") == "|";
    IndexIsFiltering(rows, "", "", from, to);
  }

  ghost predicate ReportFaithful(rows: seq<Row>, squad: string, agent: string) {
    forall from, to ::
      Reported(Indexed(rows), squad, agent, from, to) == Selected(rows, squad, agent, from, to)
  }

  /** The report is the filter's exactly when the filter selects something or nothing is filed. */
  lemma ReportFaithfulExactly(rows: seq<Row>, squad: string, agent: string)
    requires '|' !in squad && ('|' !in agent || PlainSquads(rows))
    ensures ReportFaithful(rows, squad, agent) <==> Matches(rows, squad, agent) || !Matches(rows, "", "")
  {
    forall from, to
      ensures Reported(Indexed(rows), squad, agent, from, to) ==
              if Matches(rows, squad, agent) then Selected(rows, squad, agent, from, to)
              else Selected(rows, "", "", from, to)
      ensures !Matches(rows, squad, agent) ==> Selected(rows, squad, agent, from, to) == []
      ensures !Matches(rows, "", "") ==> Selected(rows, "", "", from, to) == []
    {
      ReportShows(rows, squad, agent, from, to);
      SelectedSome(rows, squad, agent, from, to);
      SelectedSome(rows, "", "", from, to);
    }
    if r :| !Matches(rows, squad, agent) && r in rows && Selects(r, "", "", r.from, r.to) {
      SelectedSome(rows, "", "", r.from, r.to);
      assert Reported(Indexed(rows), squad, agent, r.from, r.to) != Selected(rows, squad, agent, r.from, r.to);
    }
  }
}
