/** apiserver/pkg/state: the record kept for each workflow and the in-memory store of records. */
module State {
  import opened Wrappers
  import opened Labeling

  /** GitHub is asked for one page of runs (apiserver/pkg/gitclient/github_client.go:96-105). */
  const PER_PAGE: nat := 100

  type Page = runs: seq<WorkflowRun> | |runs| <= PER_PAGE

  datatype Status = Unset | Valid | Errored

  /** Times are nanoseconds. A nil and an empty `lastValue` are treated alike everywhere. */
  datatype ClientState = ClientState(
    name: string, lastValue: Page, lastRequest: int, status: Status, nextForcedScale: Option<int>)

  type InfoMap = map<nat, WorkflowInfo>

  function NewClientState(name: string): ClientState {
    ClientState(name, [], 0, Unset, None)
  }

  /** Records are copied out and copied in: a caller changes its own copy until it calls SetState. */
  class InMemoryStateProvider {
    var clientStateData: map<string, ClientState>
    var workflowInfo: map<string, InfoMap>

    constructor ()
      ensures clientStateData == map[] && workflowInfo == map[]
    {
      clientStateData, workflowInfo := map[], map[];
    }

    function StateOf(key: string): ClientState
      reads this`clientStateData
    {
      if key in clientStateData then clientStateData[key] else NewClientState(key)
    }

    method GetState(key: string) returns (s: ClientState)
      ensures s == StateOf(key)
    {
      if key in clientStateData {
        s := clientStateData[key];
      } else {
        s := NewClientState(key);
      }
    }

    method SetState(key: string, s: ClientState)
      modifies this`clientStateData
      ensures clientStateData == old(clientStateData)[key := s]
    {
      clientStateData := clientStateData[key := s];
    }

    method GetWorkflowInfo(key: string) returns (info: Option<InfoMap>)
      ensures info == if key in workflowInfo then Some(workflowInfo[key]) else None
    {
      if key in workflowInfo {
        info := Some(workflowInfo[key]);
      } else {
        info := None;
      }
    }

    method SetWorkflowInfo(key: string, info: InfoMap)
      modifies this`workflowInfo
      ensures workflowInfo == old(workflowInfo)[key := info]
    {
      workflowInfo := workflowInfo[key := info];
    }
  }
}
