/** src/pages/CampaignsPage.tsx: the campaign list filtered by the active tab, the
    status labels, and the order in which loading and creating campaigns update the
    page's state. */
module CampaignsPage {
  import opened Common
  import opened JsString
  import opened JsArray

  /** `type: 'email' | 'linkedin'`, also the type of the tab. */
  datatype CampaignType = EmailCampaign | LinkedinCampaign

  /** `status: 'active' | 'paused' | 'draft'`. */
  datatype CampaignStatus = Active | Paused | Draft

  function TypeName(t: CampaignType): string {
    match t
    case EmailCampaign => "email"
    case LinkedinCampaign => "linkedin"
  }

  function StatusName(s: CampaignStatus): string {
    match s
    case Active => "active"
    case Paused => "paused"
    case Draft => "draft"
  }

  datatype CampaignStats = CampaignStats(sent: int, trendUp: bool)

  datatype Campaign = Campaign(
    id: int,
    name: string,
    kind: CampaignType,
    status: CampaignStatus,
    stats: CampaignStats,
    createdAt: string)

  /** The analytics reply's data, kept as it arrives. */
  datatype Analytics = Analytics(payload: string)

  /** What creating a campaign sends: the name and the type. */
  datatype CreateRequest = CreateRequest(name: string, kind: CampaignType)

  // ---------------------------------------------------------------------------
  // listing

  function OfType(tab: CampaignType): Campaign -> bool {
    (c: Campaign) => c.kind == tab
  }

  /** `filteredCampaigns`: exactly the campaigns of the active tab's type, in the
      order they were fetched. */
  function FilterByType(campaigns: seq<Campaign>, tab: CampaignType): (r: seq<Campaign>)
    ensures IsSubsequence(r, campaigns)
    ensures forall c :: c in r <==> c in campaigns && c.kind == tab
  {
    FilterIsSubsequence(campaigns, OfType(tab));
    forall c ensures c in Filter(campaigns, OfType(tab)) <==> c in campaigns && c.kind == tab {
      FilterMembership(campaigns, OfType(tab), c);
    }
    Filter(campaigns, OfType(tab))
  }

  /** The two tabs split the campaigns between them: every campaign is listed under
      exactly one tab, as often as it was fetched. */
  lemma TabsPartition(campaigns: seq<Campaign>)
    ensures multiset(FilterByType(campaigns, EmailCampaign)) + multiset(FilterByType(campaigns, LinkedinCampaign))
      == multiset(campaigns)
  {
    FilterCounts(campaigns, OfType(EmailCampaign));
    FilterCounts(campaigns, OfType(LinkedinCampaign));
  }

  /** The first character upper-cased and the rest as it was; the empty string stays
      empty. */
  function Capitalize(s: string): (r: string)
    ensures |r| == |s|
    ensures |s| > 0 ==> r[0] == UpperChar(s[0]) && r[1..] == s[1..]
  {
    if s == [] then [] else [UpperChar(s[0])] + s[1..]
  }

  /** The label on a campaign's status tag. */
  function StatusLabel(s: CampaignStatus): string {
    Capitalize(StatusName(s))
  }

  /** The three labels read `Active`, `Paused` and `Draft`. */
  lemma StatusLabels()
    ensures StatusLabel(Active) == "Active"
    ensures StatusLabel(Paused) == "Paused"
    ensures StatusLabel(Draft) == "Draft"
  {
    assert StatusName(Active) == "active" && StatusName(Paused) == "paused" && StatusName(Draft) == "draft";
  }

  /** The campaign list area. */
  datatype ListView =
    | LoadingRows(count: nat)
    | Rows(rows: seq<Campaign>)
    | EmptyMessage(text: string)

  /** Three placeholders while loading; otherwise the campaigns of the tab, or the
      empty-state message naming the tab exactly when there are none. */
  function ListFor(campaigns: seq<Campaign>, tab: CampaignType, isLoading: bool): (r: ListView)
    ensures isLoading <==> r.LoadingRows?
    ensures r.LoadingRows? ==> r.count == 3
    ensures r.EmptyMessage? <==> !isLoading && forall c :: c in campaigns ==> c.kind != tab
    ensures r.EmptyMessage? ==> r.text == "No " + TypeName(tab) + " campaigns found. Create one to get started!"
    ensures r.Rows? ==> r.rows == FilterByType(campaigns, tab) && |r.rows| > 0
  {
    if isLoading then LoadingRows(3)
    else
      var shown := FilterByType(campaigns, tab);
      if |shown| > 0 then Rows(shown)
      else
        assert forall c :: c in campaigns ==> c.kind != tab;
        EmptyMessage("No " + TypeName(tab) + " campaigns found. Create one to get started!")
  }

  // ---------------------------------------------------------------------------
  // the page

  class Page {
    var campaigns: seq<Campaign>
    var activeTab: CampaignType
    var analytics: Option<Analytics>
    var isModalOpen: bool
    var isLoading: bool

    /** The page as it mounts: nothing fetched yet, the email tab, loading. */
    constructor ()
      ensures campaigns == [] && activeTab == EmailCampaign && analytics.None?
      ensures !isModalOpen && isLoading
    {
      campaigns, activeTab, analytics := [], EmailCampaign, None;
      isModalOpen, isLoading := false, true;
    }

    /** `fetchCampaigns`, given the reply to the list request and, when it is asked
        for, the reply to the analytics request. A successful list replaces the
        campaigns; analytics are requested only for a non-empty list, always for its
        first campaign, and their data is kept whatever the success flag says. The
        page stops loading in every case. Returns the id analytics were asked for. */
    method FetchCampaigns(list: Response<seq<Campaign>>, analyticsReply: Response<Analytics>)
      returns (analyticsFor: Option<int>)
      modifies this`campaigns, this`analytics, this`isLoading
      ensures analyticsFor.Some? <==> Succeeded(list) && |list.data| > 0
      ensures analyticsFor.Some? ==> analyticsFor.value == list.data[0].id
      ensures campaigns == if Succeeded(list) then list.data else old(campaigns)
      ensures analytics == if analyticsFor.Some? && analyticsReply.Reply? then Some(analyticsReply.data)
                           else old(analytics)
      ensures !isLoading
    {
      isLoading := true;
      analyticsFor := None;
      if Succeeded(list) {
        campaigns := list.data;
        if |list.data| > 0 {
          analyticsFor := Some(list.data[0].id);
          if analyticsReply.Reply? {
            analytics := Some(analyticsReply.data);
          }
        }
      }
      isLoading := false;
    }

    /** `handleCreateCampaign`: the saved name is sent with the active tab as its
        type; only a successful reply closes the modal and asks for the list again.
        Returns the request and whether the list is fetched again. */
    method HandleCreateCampaign(draftName: string, reply: Response<()>)
      returns (request: CreateRequest, refetch: bool)
      modifies this`isModalOpen
      ensures request == CreateRequest(draftName, activeTab)
      ensures refetch <==> Succeeded(reply)
      ensures isModalOpen == (!refetch && old(isModalOpen))
    {
      request := CreateRequest(draftName, activeTab);
      refetch := Succeeded(reply);
      if refetch {
        isModalOpen := false;
      }
    }

    method SetTab(tab: CampaignType)
      modifies this`activeTab
      ensures activeTab == tab
    {
      activeTab := tab;
    }

    method OpenModal()
      modifies this`isModalOpen
      ensures isModalOpen
    {
      isModalOpen := true;
    }

    method CloseModal()
      modifies this`isModalOpen
      ensures !isModalOpen
    {
      isModalOpen := false;
    }
  }
}
