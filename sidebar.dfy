/**
 * The idea sidebar (`Sidebar`): its two pieces of state, `collapsed` and
 * `activeAgent`, driven by the toggle button, agent clicks and the mobile
 * auto-collapse effect; and what it lists: the first three ideas, the current
 * one highlighted, and one link per consultant, the active one highlighted.
 * Whether the screen is mobile is an input, and so is the list of stored ideas.
 */
module Sidebar {
  import opened Wrappers
  import opened Agents

  // ---------------------------------------------------------------- state machine

  /**
   * The state: the two React state variables, and the value of `isMobile` the
   * mobile effect last ran for (`None` before its first run).
   */
  datatype State = State(collapsed: bool, activeAgent: string, lastMobile: Option<bool>)

  datatype Event =
    | ToggleClicked
    | AgentClicked(agentId: string, isMobile: bool)
    | MobileObserved(isMobile: bool)

  /** The state of a freshly mounted sidebar. */
  const Initial := State(false, "assistant", None)

  /** One transition. The effect runs only when `isMobile` differs from the value it last ran for. */
  function Step(s: State, e: Event): State {
    match e
    case ToggleClicked => s.(collapsed := !s.collapsed)
    case AgentClicked(id, isMobile) => s.(activeAgent := id, collapsed := s.collapsed || isMobile)
    case MobileObserved(isMobile) =>
      if s.lastMobile == Some(isMobile) then s
      else s.(lastMobile := Some(isMobile), collapsed := s.collapsed || isMobile)
  }

  /** The state after a run of events, in order. */
  function Run(s: State, events: seq<Event>): State
    decreases |events|
  {
    if events == [] then s else Run(Step(s, events[0]), events[1..])
  }

  /** The toggle flips `collapsed` and nothing else; toggling twice restores the state. */
  lemma ToggleFlips(s: State)
    ensures Step(s, ToggleClicked) == s.(collapsed := !s.collapsed)
    ensures Step(Step(s, ToggleClicked), ToggleClicked) == s
  {
  }

  /**
   * An agent click makes the agent active and collapses the sidebar only on a
   * mobile screen; on a wide screen `collapsed` is unchanged.
   */
  lemma AgentClickRule(s: State, id: string, isMobile: bool)
    ensures Step(s, AgentClicked(id, isMobile)).activeAgent == id
    ensures isMobile ==> Step(s, AgentClicked(id, isMobile)).collapsed
    ensures !isMobile ==> Step(s, AgentClicked(id, isMobile)).collapsed == s.collapsed
  {
  }

  /**
   * Becoming mobile collapses the sidebar; being non-mobile never changes
   * `collapsed`, and the effect never changes the active agent.
   */
  lemma MobileRule(s: State, isMobile: bool)
    ensures s.lastMobile != Some(true) ==> Step(s, MobileObserved(true)).collapsed
    ensures Step(s, MobileObserved(false)).collapsed == s.collapsed
    ensures Step(s, MobileObserved(isMobile)).activeAgent == s.activeAgent
  {
  }

  /** The id of the last agent clicked in `events`, if any. */
  function LastClicked(events: seq<Event>): Option<string>
    decreases |events|
  {
    if events == [] then None
    else if events[|events| - 1].AgentClicked? then Some(events[|events| - 1].agentId)
    else LastClicked(events[..|events| - 1])
  }

  lemma {:induction false} RunSnoc(s: State, events: seq<Event>, e: Event)
    ensures Run(s, events + [e]) == Step(Run(s, events), e)
    decreases |events|
  {
    if events == [] {
      assert events + [e] == [e];
    } else {
      assert (events + [e])[1..] == events[1..] + [e];
      RunSnoc(Step(s, events[0]), events[1..], e);
    }
  }

  /** The active agent is the last one clicked, or `assistant` when no agent has been clicked since mounting. */
  lemma {:induction false} ActiveAgentIsLastClicked(events: seq<Event>)
    ensures Run(Initial, events).activeAgent == match LastClicked(events) case Some(id) => id case None => "assistant"
    decreases |events|
  {
    if events != [] {
      var front, e := events[..|events| - 1], events[|events| - 1];
      assert events == front + [e];
      RunSnoc(Initial, front, e);
      ActiveAgentIsLastClicked(front);
    }
  }

  /** The sidebar as an object whose React state the handlers update in place. */
  class SidebarState {
    var collapsed: bool
    var activeAgent: string
    var lastMobile: Option<bool>

    function Current(): State
      reads this
    {
      State(collapsed, activeAgent, lastMobile)
    }

    /** `useState(false)`, `useState("assistant")`, before the mobile effect has run. */
    constructor ()
      ensures Current() == Initial
    {
      collapsed := false;
      activeAgent := "assistant";
      lastMobile := None;
    }

    /** The toggle button: `setCollapsed(!collapsed)`. */
    method Toggle()
      modifies this
      ensures Current() == Step(old(Current()), ToggleClicked)
      ensures collapsed == !old(collapsed) && activeAgent == old(activeAgent)
    {
      collapsed := !collapsed;
    }

    /** `handleAgentClick(agentId)`. */
    method HandleAgentClick(agentId: string, isMobile: bool)
      modifies this
      ensures Current() == Step(old(Current()), AgentClicked(agentId, isMobile))
      ensures activeAgent == agentId && collapsed == (old(collapsed) || isMobile)
    {
      activeAgent := agentId;
      if isMobile {
        collapsed := true;
      }
    }

    /** The auto-collapse effect, which depends on `isMobile` only. */
    method ObserveMobile(isMobile: bool)
      modifies this
      ensures Current() == Step(old(Current()), MobileObserved(isMobile))
      ensures old(lastMobile) != Some(isMobile) && isMobile ==> collapsed
    {
      if lastMobile != Some(isMobile) {
        lastMobile := Some(isMobile);
        if isMobile {
          collapsed := true;
        }
      }
    }
  }

  // ---------------------------------------------------------------- recent ideas

  /** The parts of a stored idea the sidebar reads. */
  datatype Idea = Idea(id: string, title: string)

  /** A link to an idea's dashboard. */
  datatype IdeaLink = IdeaLink(target: string, text: string, highlighted: bool)

  const MaxTitle := 25

  /** A title as listed: unchanged up to 25 characters, else its first 25 characters and `...`. */
  function DisplayTitle(title: string): (shown: string)
    ensures |title| <= MaxTitle ==> shown == title
    ensures |title| > MaxTitle ==> |shown| == MaxTitle + 3 && shown[MaxTitle..] == "..."
  {
    if |title| > MaxTitle then title[..MaxTitle] + "..." else title
  }

  /**
   * A shown title is at most 28 characters long and starts like the title; it
   * equals the title exactly when the title is short or already reads as a
   * 25-character head followed by `...`.
   */
  lemma DisplayTitleFits(title: string)
    ensures |DisplayTitle(title)| <= MaxTitle + 3
    ensures |title| > MaxTitle ==> DisplayTitle(title)[..MaxTitle] == title[..MaxTitle]
    ensures DisplayTitle(title) == title <==>
      |title| <= MaxTitle || (|title| == MaxTitle + 3 && title[MaxTitle..] == "...")
  {
    if |title| == MaxTitle + 3 && title[MaxTitle..] == "..." {
      assert title == title[..MaxTitle] + title[MaxTitle..];
    }
  }

  /** One link per idea, in order, highlighted exactly when it is the idea on screen. */
  function IdeaLinks(ideas: seq<Idea>, ideaId: string): (links: seq<IdeaLink>)
    ensures |links| == |ideas|
    ensures forall k :: 0 <= k < |ideas| ==>
      links[k] == IdeaLink("/dashboard/" + ideas[k].id, DisplayTitle(ideas[k].title), ideas[k].id == ideaId)
  {
    if ideas == [] then []
    else
      [IdeaLink("/dashboard/" + ideas[0].id, DisplayTitle(ideas[0].title), ideas[0].id == ideaId)]
      + IdeaLinks(ideas[1..], ideaId)
  }

  /** `ideas.slice(0, 3).map(...)`. */
  function RecentIdeas(ideas: seq<Idea>, ideaId: string): seq<IdeaLink> {
    IdeaLinks(ideas[..if |ideas| < 3 then |ideas| else 3], ideaId)
  }

  /**
   * At most three ideas are listed, the first ones in order; an entry is
   * highlighted exactly when its id is the current idea's.
   */
  lemma RecentIdeasAreFirstThree(ideas: seq<Idea>, ideaId: string)
    ensures |RecentIdeas(ideas, ideaId)| == if |ideas| < 3 then |ideas| else 3
    ensures forall k :: 0 <= k < |RecentIdeas(ideas, ideaId)| ==>
      && RecentIdeas(ideas, ideaId)[k].text == DisplayTitle(ideas[k].title)
      && (RecentIdeas(ideas, ideaId)[k].highlighted <==> ideas[k].id == ideaId)
  {
  }

  /** With distinct idea ids, at most one listed idea is highlighted. */
  lemma OneIdeaHighlighted(ideas: seq<Idea>, ideaId: string)
    requires forall i, j :: 0 <= i < j < |ideas| ==> ideas[i].id != ideas[j].id
    ensures forall i, j :: 0 <= i < j < |RecentIdeas(ideas, ideaId)| ==>
      !(RecentIdeas(ideas, ideaId)[i].highlighted && RecentIdeas(ideas, ideaId)[j].highlighted)
  {
  }

  // ---------------------------------------------------------------- consultant links

  /** A consultant link: its target, avatar colour, whether it is highlighted and its label, hidden when collapsed. */
  datatype AgentLink = AgentLink(target: string, color: string, highlighted: bool, text: Option<string>)

  /** `agents.map(...)` over the given table. */
  function AgentLinks(agents: seq<Agent>, activeAgent: string, collapsed: bool, ideaId: string): (links: seq<AgentLink>)
    ensures |links| == |agents|
    ensures forall k :: 0 <= k < |agents| ==>
      && links[k].target == "/chat/" + ideaId + "/" + agents[k].id
      && links[k].color == agents[k].color
      && (links[k].highlighted <==> agents[k].id == activeAgent)
      && (links[k].text.None? <==> collapsed)
      && (!collapsed ==> links[k].text == Some(agents[k].agentName + " (" + agents[k].name + ")"))
  {
    if agents == [] then []
    else
      var a := agents[0];
      [AgentLink("/chat/" + ideaId + "/" + a.id, a.color, a.id == activeAgent,
                 if collapsed then None else Some(a.agentName + " (" + a.name + ")"))]
      + AgentLinks(agents[1..], activeAgent, collapsed, ideaId)
  }

  /**
   * With distinct ids, at most one consultant is highlighted, and one is
   * exactly when the active agent is an id of the table.
   */
  lemma OneAgentHighlighted(agents: seq<Agent>, activeAgent: string, collapsed: bool, ideaId: string)
    requires DistinctIds(agents)
    ensures var links := AgentLinks(agents, activeAgent, collapsed, ideaId);
      forall i, j :: 0 <= i < j < |links| ==> !(links[i].highlighted && links[j].highlighted)
    ensures var links := AgentLinks(agents, activeAgent, collapsed, ideaId);
      (exists k :: 0 <= k < |links| && links[k].highlighted) <==> activeAgent in Ids(agents)
  {
    var links := AgentLinks(agents, activeAgent, collapsed, ideaId);
    if activeAgent in Ids(agents) {
      var k :| 0 <= k < |agents| && Ids(agents)[k] == activeAgent;
      assert links[k].highlighted;
    }
  }

  /** On a fresh sidebar the first consultant, the assistant, is the highlighted one. */
  lemma AssistantHighlightedInitially(ideaId: string)
    ensures var links := AgentLinks(Registry, Initial.activeAgent, Initial.collapsed, ideaId);
      |links| == 7 && links[0].highlighted && forall k :: 1 <= k < 7 ==> !links[k].highlighted
  {
    RegistryShape();
    OneAgentHighlighted(Registry, Initial.activeAgent, Initial.collapsed, ideaId);
    assert Registry[0].id == "assistant";
  }

  // ---------------------------------------------------------------- the rendered sidebar

  /** What the sidebar shows for a state. */
  datatype View = View(
    width: string,
    showsBrand: bool,
    recent: seq<IdeaLink>,
    consultants: seq<AgentLink>,
    newIdeaLabel: string)

  function Render(s: State, ideas: seq<Idea>, ideaId: string): View {
    View(
      if s.collapsed then "w-16" else "w-96",
      !s.collapsed,
      if s.collapsed then [] else RecentIdeas(ideas, ideaId),
      AgentLinks(Registry, s.activeAgent, s.collapsed, ideaId),
      if s.collapsed then "+" else "New Idea")
  }

  /**
   * A collapsed sidebar hides the brand, the idea list and every consultant
   * label but still lists all seven consultants; an expanded one shows them all.
   */
  lemma CollapsedHidesLabels(s: State, ideas: seq<Idea>, ideaId: string)
    ensures var v := Render(s, ideas, ideaId);
      && |v.consultants| == 7
      && (s.collapsed ==> !v.showsBrand && v.recent == [] && forall k :: 0 <= k < 7 ==> v.consultants[k].text.None?)
      && (!s.collapsed ==> v.showsBrand && v.recent == RecentIdeas(ideas, ideaId)
                           && forall k :: 0 <= k < 7 ==> v.consultants[k].text.Some?)
  {
    RegistryShape();
  }
}
