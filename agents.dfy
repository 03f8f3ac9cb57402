/** The fixed table of AI consultants (the `agents` array). The icon, a UI element, is left out. */
module Agents {
  import opened Wrappers

  datatype Agent = Agent(id: string, name: string, color: string, agentName: string)

  const Registry: seq<Agent> := [
    Agent("assistant", "Personal Assistant", "purple", "Stacy"),
    Agent("pitch", "Pitch Expert", "blue", "Steve"),
    Agent("financial", "Financial Analyst", "emerald", "Jordon"),
    Agent("market", "Market Researcher", "amber", "Lily"),
    Agent("legal", "Legal Consultant", "red", "Harvey"),
    Agent("growth", "Growth Strategist", "teal", "Reids"),
    Agent("fundraising", "Fundraising Coach", "indigo", "Sam")
  ]

  /** The ids of `agents`, in table order. */
  function Ids(agents: seq<Agent>): (ids: seq<string>)
    ensures |ids| == |agents|
    ensures forall k :: 0 <= k < |agents| ==> ids[k] == agents[k].id
  {
    if agents == [] then [] else [agents[0].id] + Ids(agents[1..])
  }

  predicate DistinctIds(agents: seq<Agent>) {
    forall i, j :: 0 <= i < j < |agents| ==> agents[i].id != agents[j].id
  }

  /** `agents.find(agent => agent.id === id)`: the first entry with that id, or `undefined`. */
  function FindById(agents: seq<Agent>, id: string): (r: Option<Agent>)
    ensures r.None? <==> id !in Ids(agents)
    ensures r.Some? ==> r.value in agents && r.value.id == id
    ensures agents != [] && agents[0].id == id ==> r == Some(agents[0])
  {
    if agents == [] then None
    else if agents[0].id == id then Some(agents[0])
    else
      assert Ids(agents) == [agents[0].id] + Ids(agents[1..]);
      FindById(agents[1..], id)
  }

  /** The registry holds exactly seven consultants, with pairwise distinct ids. */
  lemma RegistryShape()
    ensures |Registry| == 7
    ensures DistinctIds(Registry)
    ensures Ids(Registry) == ["assistant", "pitch", "financial", "market", "legal", "growth", "fundraising"]
  {
    RegistryIds();
    var ids := Ids(Registry);
    forall i, j | 0 <= i < j < |Registry|
      ensures Registry[i].id != Registry[j].id
    {
      assert ids[i] == Registry[i].id && ids[j] == Registry[j].id;
    }
  }

  /**
   * Proof step of `RegistryShape`: the ids of the registry, in table order.
   * It is kept apart so that the table literal is unfolded in one small proof.
   */
  lemma RegistryIds()
    ensures |Registry| == 7
    ensures Ids(Registry) == ["assistant", "pitch", "financial", "market", "legal", "growth", "fundraising"]
  {
  }

  /** With distinct ids, a lookup finds the one entry carrying the id, whichever it is. */
  lemma {:induction false} FindUnique(agents: seq<Agent>, k: nat)
    requires DistinctIds(agents)
    requires k < |agents|
    ensures FindById(agents, agents[k].id) == Some(agents[k])
  {
    if k > 0 {
      assert agents[0].id != agents[k].id;
      assert agents[1..][k - 1] == agents[k];
      FindUnique(agents[1..], k - 1);
    }
  }

  /** The first entry is the default consultant, `assistant`, whose persona is Stacy. */
  lemma AssistantIsFirst()
    ensures Registry[0].id == "assistant" && Registry[0].agentName == "Stacy"
    ensures FindById(Registry, "assistant") == Some(Registry[0])
  {
    RegistryShape();
    FindUnique(Registry, 0);
  }

  /** The persona name put into the chat prompt: `agentName`, or the text `undefined` for an unknown id. */
  function PersonaName(id: string): (name: string)
    ensures id in Ids(Registry) ==> exists k :: 0 <= k < |Registry| && Registry[k].id == id && name == Registry[k].agentName
    ensures id !in Ids(Registry) ==> name == "undefined"
  {
    match FindById(Registry, id)
    case Some(a) => a.agentName
    case None => "undefined"
  }
}
