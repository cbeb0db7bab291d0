/** The Git Data commit pipeline and the pull-request lookup
    (src/services/github.ts). GitHub is an in-memory repository: a map from
    branch names to commit SHAs, an object store from SHAs to blobs, trees
    and commits, the open pull requests, and the log of requests received.
    A fault oracle says, for each kind of request, whether GitHub answers
    it, rejects it (a non-ok response) or answers with a body that fails
    schema validation; object names come from a hash function the
    repository is given. HTTP, JSON bodies and the zod schemas are not part
    of the model: a request is its method, its URL and what it asks for. */
module GitHub {
  import opened Util

  datatype Config = Config(token: string, organization: string, repository: string)

  /** `https://api.github.com/repos/{organization}/{repository}`. */
  function BaseUrl(c: Config): string
  {
    "https://api.github.com/repos/" + c.organization + "/" + c.repository
  }

  /** The URL rule of `request`: a full URL is kept, an endpoint is put
      after the repository's base URL. */
  function RequestUrl(c: Config, endpoint: string): string
  {
    if StartsWith(endpoint, "http") then endpoint else BaseUrl(c) + endpoint
  }

  /** Every request URL starts with `http`, an endpoint not starting with
      it lands under the repository, and the rule is idempotent. */
  lemma RequestUrlSpec(c: Config, endpoint: string)
    ensures StartsWith(RequestUrl(c, endpoint), "http")
    ensures !StartsWith(endpoint, "http") ==> StartsWith(RequestUrl(c, endpoint), BaseUrl(c))
    ensures RequestUrl(c, RequestUrl(c, endpoint)) == RequestUrl(c, endpoint)
  {
    if !StartsWith(endpoint, "http") {
      var url := BaseUrl(c) + endpoint;
      assert url[..|BaseUrl(c)|] == BaseUrl(c);
      assert url[..4] == BaseUrl(c)[..4] == "http";
    }
  }

  datatype TreeEntry = TreeEntry(path: string, mode: string, etype: string, sha: string)

  datatype GitObject =
    | Blob(content: string, encoding: string)
    | Tree(baseTree: string, entries: seq<TreeEntry>)
    | Commit(message: string, tree: string, parents: seq<string>)

  datatype PullRequest = PullRequest(number: int, title: string, htmlUrl: string, headLabel: string, base: string, state: string)

  /** What a request asks for (the fields of its JSON body or query). */
  datatype Action =
    | ReadRef(branch: string)
    | PostBlob(content: string, encoding: string)
    | PostTree(baseTree: string, entries: seq<TreeEntry>)
    | PostCommit(message: string, tree: string, parents: seq<string>)
    | PatchRef(branch: string, sha: string, force: bool)
    | ListPulls(head: string, base: string, state: string)

  datatype Request = Request(verb: string, url: string, action: Action)

  datatype Data = ShaData(sha: string) | PullsData(pulls: seq<PullRequest>)

  /** A non-ok response with GitHub's `message` and the status text, or an
      ok one whose body passed (`Some`) or failed (`None`) validation. */
  datatype Response = NotOk(message: string, statusText: string) | Delivered(data: Option<Data>)

  datatype Step = GetRefStep | BlobStep | TreeStep | CommitStep | UpdateRefStep | PullsStep

  datatype Outcome = Answer | Reject(message: string, statusText: string) | Unreadable

  /** How the repository behaves: the fault oracle, object naming, and the
      pull requests it knows. */
  datatype Env = Env(fault: Step -> Outcome, hash: GitObject -> string, pulls: seq<PullRequest>)

  datatype Store = Store(refs: map<string, string>, objects: map<string, GitObject>)

  function StepOf(a: Action): Step
  {
    match a
    case ReadRef(_) => GetRefStep
    case PostBlob(_, _) => BlobStep
    case PostTree(_, _) => TreeStep
    case PostCommit(_, _, _) => CommitStep
    case PatchRef(_, _, _) => UpdateRefStep
    case ListPulls(_, _, _) => PullsStep
  }

  predicate Matches(p: PullRequest, head: string, base: string, state: string)
  {
    p.headLabel == head && p.base == base && p.state == state
  }

  /** The pull requests with the given head label, base and state, in order. */
  function Matching(pulls: seq<PullRequest>, head: string, base: string, state: string): seq<PullRequest>
  {
    if pulls == [] then []
    else
      (if Matches(pulls[0], head, base, state) then [pulls[0]] else [])
      + Matching(pulls[1..], head, base, state)
  }

  function Store1(s: Store, o: GitObject, hash: GitObject -> string): (Response, Store)
  {
    (Delivered(Some(ShaData(hash(o)))), s.(objects := s.objects[hash(o) := o]))
  }

  /** What GitHub does with a request it answers. */
  function Perform(env: Env, s: Store, a: Action): (Response, Store)
  {
    match a
    case ReadRef(b) =>
      if b in s.refs then (Delivered(Some(ShaData(s.refs[b]))), s) else (NotOk("Not Found", "Not Found"), s)
    case PostBlob(c, e) => Store1(s, Blob(c, e), env.hash)
    case PostTree(t, es) => Store1(s, Tree(t, es), env.hash)
    case PostCommit(m, t, ps) => Store1(s, Commit(m, t, ps), env.hash)
    case PatchRef(b, sha, _) =>
      if b in s.refs then (Delivered(Some(ShaData(sha))), s.(refs := s.refs[b := sha]))
      else (NotOk("Reference does not exist", "Unprocessable Entity"), s)
    case ListPulls(h, b, st) => (Delivered(Some(PullsData(Matching(env.pulls, h, b, st)))), s)
  }

  /** A rejected request changes nothing; an unreadable answer has its
      effect but its body fails validation. */
  function Handle(env: Env, s: Store, a: Action): (Response, Store)
  {
    var outcome := env.fault(StepOf(a));
    if outcome.Reject? then (NotOk(outcome.message, outcome.statusText), s)
    else
      var (resp, s') := Perform(env, s, a);
      if outcome.Unreadable? && resp.Delivered? then (Delivered(None), s') else (resp, s')
  }

  /** The repository GitHub keeps. */
  class Remote {
    var refs: map<string, string>
    var objects: map<string, GitObject>
    var log: seq<Request>
    const env: Env

    constructor(refs: map<string, string>, objects: map<string, GitObject>, env: Env)
      ensures this.refs == refs && this.objects == objects && this.env == env && log == []
    {
      this.refs := refs;
      this.objects := objects;
      this.env := env;
      log := [];
    }

    function Current(): Store
      reads this
    {
      Store(refs, objects)
    }

    /** Receiving one request. */
    method Serve(req: Request) returns (resp: Response)
      modifies this
      ensures log == old(log) + [req]
      ensures (resp, Current()) == Handle(env, old(Current()), req.action)
    {
      log := log + [req];
      var s;
      resp, s := Handle(env, Current(), req.action).0, Handle(env, Current(), req.action).1;
      refs := s.refs;
      objects := s.objects;
    }
  }

  /** `request`'s response handling: a non-ok response throws with GitHub's
      message (or the status text when it has none), a body failing
      validation throws, and otherwise the data is returned. */
  function Interpret(resp: Response): Result<Data>
  {
    match resp
    case NotOk(m, st) => Err("GitHub API Error: " + (if m != "" then m else st))
    case Delivered(d) => if d.Some? then Ok(d.value) else Err("API response validation failed")
  }

  /** A response that should carry a SHA, checked against its schema. */
  function ShaOf(r: Result<Data>): Result<string>
  {
    if r.Err? then Err(r.msg)
    else if r.value.ShaData? then Ok(r.value.sha)
    else Err("API response validation failed")
  }

  // ---------------------------------------------------------------------
  // The requests of the commit pipeline

  function RefEndpoint(branch: string): string
  {
    "/git/refs/heads/" + branch
  }

  const FileMode: string := "100644"

  function GetRefRequest(c: Config, branch: string): Request
  {
    Request("GET", RequestUrl(c, RefEndpoint(branch)), ReadRef(branch))
  }

  function BlobRequest(c: Config, content: string): Request
  {
    Request("POST", RequestUrl(c, "/git/blobs"), PostBlob(content, "utf-8"))
  }

  function TreeRequest(c: Config, baseTree: string, path: string, blobSha: string): Request
  {
    Request("POST", RequestUrl(c, "/git/trees"), PostTree(baseTree, [TreeEntry(path, FileMode, "blob", blobSha)]))
  }

  function CommitRequest(c: Config, message: string, treeSha: string, parentSha: string): Request
  {
    Request("POST", RequestUrl(c, "/git/commits"), PostCommit(message, treeSha, [parentSha]))
  }

  function UpdateRefRequest(c: Config, branch: string, sha: string): Request
  {
    Request("PATCH", RequestUrl(c, RefEndpoint(branch)), PatchRef(branch, sha, true))
  }

  /** The `path = "variables.json"` default. */
  function PathOrDefault(path: Option<string>): string
  {
    if path.Some? then path.value else "variables.json"
  }

  /** A run of requests: what the last one gave, the repository afterwards
      and the requests sent. */
  datatype Run = Run(result: Result<string>, store: Store, sent: seq<Request>)

  /** One request and its SHA-carrying answer. */
  function Exchange(env: Env, s: Store, req: Request): Run
  {
    var (resp, s') := Handle(env, s, req.action);
    Run(ShaOf(Interpret(resp)), s', [req])
  }

  function SentBefore(req: Request, run: Run): Run
  {
    run.(sent := [req] + run.sent)
  }

  /** `commitChanges` as a whole: each step's SHA feeds the next, and the
      first failure ends the run. */
  function CommitFlow(c: Config, env: Env, s: Store, branch: string, message: string, content: string, path: string): Run
  {
    Steps(c, env, s, branch, message, ToReadTip(content, path))
  }

  /** How far a commit has got: what is still to be sent, with the SHAs
      the steps so far returned. */
  datatype Stage =
    | ToReadTip(content: string, path: string)
    | ToStoreBlob(parentSha: string, content: string, path: string)
    | ToBuildTree(parentSha: string, path: string, blobSha: string)
    | ToCommit(parentSha: string, treeSha: string)
    | ToMoveBranch(commitSha: string)

  function Remaining(stage: Stage): nat
  {
    match stage
    case ToReadTip(_, _) => 4
    case ToStoreBlob(_, _, _) => 3
    case ToBuildTree(_, _, _) => 2
    case ToCommit(_, _) => 1
    case ToMoveBranch(_) => 0
  }

  /** The steps of `commitChanges` from the given stage on. The commit's
      SHA is the result once the branch has moved to it. */
  function Steps(c: Config, env: Env, s: Store, branch: string, message: string, stage: Stage): Run
    decreases Remaining(stage)
  {
    var q := NextRequest(c, branch, message, stage);
    var run := Exchange(env, s, q);
    if run.result.Err? then run
    else if stage.ToMoveBranch? then run.(result := Ok(stage.commitSha))
    else SentBefore(q, Steps(c, env, run.store, branch, message, Next(stage, run.result.value)))
  }

  /** The request a stage sends. */
  function NextRequest(c: Config, branch: string, message: string, stage: Stage): (q: Request)
    ensures q.action.PatchRef? <==> stage.ToMoveBranch?
  {
    match stage
    case ToReadTip(_, _) => GetRefRequest(c, branch)
    case ToStoreBlob(_, content, _) => BlobRequest(c, content)
    case ToBuildTree(parentSha, path, blobSha) => TreeRequest(c, parentSha, path, blobSha)
    case ToCommit(parentSha, treeSha) => CommitRequest(c, message, treeSha, parentSha)
    case ToMoveBranch(commitSha) => UpdateRefRequest(c, branch, commitSha)
  }

  /** The stage after one that returned `sha`: the tip read is the parent,
      the blob goes into the tree, the tree into the commit, and the commit
      is where the branch moves. */
  function Next(stage: Stage, sha: string): (next: Stage)
    requires !stage.ToMoveBranch?
    ensures Remaining(next) < Remaining(stage)
  {
    match stage
    case ToReadTip(content, path) => ToStoreBlob(sha, content, path)
    case ToStoreBlob(parentSha, _, path) => ToBuildTree(parentSha, path, sha)
    case ToBuildTree(parentSha, _, _) => ToCommit(parentSha, sha)
    case ToCommit(_, _) => ToMoveBranch(sha)
  }

  /** The GitHub client for one repository. */
  class Service {
    const config: Config

    constructor(config: Config)
      ensures this.config == config
    {
      this.config := config;
    }

    /** `request`: the URL rule, one request sent, and its response
        interpreted. */
    method Send(remote: Remote, verb: string, endpoint: string, action: Action) returns (r: Result<Data>)
      modifies remote
      ensures remote.log == old(remote.log) + [Request(verb, RequestUrl(config, endpoint), action)]
      ensures remote.Current() == Handle(remote.env, old(remote.Current()), action).1
      ensures r == Interpret(Handle(remote.env, old(remote.Current()), action).0)
    {
      var url := RequestUrl(config, endpoint);
      var resp := remote.Serve(Request(verb, url, action));
      r := Interpret(resp);
    }

    /** One step that answers with a SHA. */
    method SendForSha(remote: Remote, req: Request, endpoint: string) returns (r: Result<string>)
      requires req.url == RequestUrl(config, endpoint)
      modifies remote
      ensures remote.log == old(remote.log) + Exchange(remote.env, old(remote.Current()), req).sent
      ensures r == Exchange(remote.env, old(remote.Current()), req).result
      ensures remote.Current() == Exchange(remote.env, old(remote.Current()), req).store
    {
      var data := Send(remote, req.verb, endpoint, req.action);
      r := ShaOf(data);
    }

    method GetBranchRef(remote: Remote, branch: string) returns (r: Result<string>)
      modifies remote
      ensures remote.log == old(remote.log) + [GetRefRequest(config, branch)]
      ensures r == Exchange(remote.env, old(remote.Current()), GetRefRequest(config, branch)).result
      ensures remote.Current() == Exchange(remote.env, old(remote.Current()), GetRefRequest(config, branch)).store
    {
      r := SendForSha(remote, GetRefRequest(config, branch), RefEndpoint(branch));
    }

    method CreateBlob(remote: Remote, content: string) returns (r: Result<string>)
      modifies remote
      ensures remote.log == old(remote.log) + [BlobRequest(config, content)]
      ensures r == Exchange(remote.env, old(remote.Current()), BlobRequest(config, content)).result
      ensures remote.Current() == Exchange(remote.env, old(remote.Current()), BlobRequest(config, content)).store
    {
      r := SendForSha(remote, BlobRequest(config, content), "/git/blobs");
    }

    method CreateTree(remote: Remote, baseTree: string, path: string, blobSha: string) returns (r: Result<string>)
      modifies remote
      ensures remote.log == old(remote.log) + [TreeRequest(config, baseTree, path, blobSha)]
      ensures r == Exchange(remote.env, old(remote.Current()), TreeRequest(config, baseTree, path, blobSha)).result
      ensures remote.Current() == Exchange(remote.env, old(remote.Current()), TreeRequest(config, baseTree, path, blobSha)).store
    {
      r := SendForSha(remote, TreeRequest(config, baseTree, path, blobSha), "/git/trees");
    }

    method CreateCommit(remote: Remote, message: string, treeSha: string, parentSha: string) returns (r: Result<string>)
      modifies remote
      ensures remote.log == old(remote.log) + [CommitRequest(config, message, treeSha, parentSha)]
      ensures r == Exchange(remote.env, old(remote.Current()), CommitRequest(config, message, treeSha, parentSha)).result
      ensures remote.Current() == Exchange(remote.env, old(remote.Current()), CommitRequest(config, message, treeSha, parentSha)).store
    {
      r := SendForSha(remote, CommitRequest(config, message, treeSha, parentSha), "/git/commits");
    }

    method UpdateRef(remote: Remote, branch: string, sha: string) returns (r: Result<string>)
      modifies remote
      ensures remote.log == old(remote.log) + [UpdateRefRequest(config, branch, sha)]
      ensures r == Exchange(remote.env, old(remote.Current()), UpdateRefRequest(config, branch, sha)).result
      ensures remote.Current() == Exchange(remote.env, old(remote.Current()), UpdateRefRequest(config, branch, sha)).store
    {
      r := SendForSha(remote, UpdateRefRequest(config, branch, sha), RefEndpoint(branch));
    }

    /** `commitChanges`: the five steps in order, stopping at the first
        error; the result is the new commit's SHA. The steps after the
        first are the methods below, one per step. */
    method CommitChanges(remote: Remote, branch: string, message: string, content: string, path: Option<string>)
      returns (r: Result<string>)
      modifies remote
      ensures var run := CommitFlow(config, remote.env, old(remote.Current()), branch, message, content, PathOrDefault(path));
              r == run.result && remote.Current() == run.store && remote.log == old(remote.log) + run.sent
    {
      var filePath := PathOrDefault(path);
      ghost var flow := CommitFlow(config, remote.env, remote.Current(), branch, message, content, filePath);
      ghost var first := Exchange(remote.env, remote.Current(), GetRefRequest(config, branch));
      var branchRef := GetBranchRef(remote, branch);
      if branchRef.Err? {
        assert flow == first;
        return branchRef;
      }
      ghost var rest := Steps(config, remote.env, remote.Current(), branch, message, ToStoreBlob(branchRef.value, content, filePath));
      assert flow == SentBefore(GetRefRequest(config, branch), rest);
      r := CommitOnTip(remote, branch, message, content, filePath, branchRef.value);
    }

    method CommitOnTip(remote: Remote, branch: string, message: string, content: string, path: string, parentSha: string)
      returns (r: Result<string>)
      modifies remote
      ensures var run := Steps(config, remote.env, old(remote.Current()), branch, message, ToStoreBlob(parentSha, content, path));
              r == run.result && remote.Current() == run.store && remote.log == old(remote.log) + run.sent
    {
      ghost var flow := Steps(config, remote.env, remote.Current(), branch, message, ToStoreBlob(parentSha, content, path));
      ghost var first := Exchange(remote.env, remote.Current(), BlobRequest(config, content));
      var blob := CreateBlob(remote, content);
      if blob.Err? {
        assert flow == first;
        return blob;
      }
      ghost var rest := Steps(config, remote.env, remote.Current(), branch, message, ToBuildTree(parentSha, path, blob.value));
      assert flow == SentBefore(BlobRequest(config, content), rest);
      r := CommitBlob(remote, branch, message, path, parentSha, blob.value);
    }

    method CommitBlob(remote: Remote, branch: string, message: string, path: string, parentSha: string, blobSha: string)
      returns (r: Result<string>)
      modifies remote
      ensures var run := Steps(config, remote.env, old(remote.Current()), branch, message, ToBuildTree(parentSha, path, blobSha));
              r == run.result && remote.Current() == run.store && remote.log == old(remote.log) + run.sent
    {
      ghost var flow := Steps(config, remote.env, remote.Current(), branch, message, ToBuildTree(parentSha, path, blobSha));
      ghost var first := Exchange(remote.env, remote.Current(), TreeRequest(config, parentSha, path, blobSha));
      var tree := CreateTree(remote, parentSha, path, blobSha);
      if tree.Err? {
        assert flow == first;
        return tree;
      }
      ghost var rest := Steps(config, remote.env, remote.Current(), branch, message, ToCommit(parentSha, tree.value));
      assert flow == SentBefore(TreeRequest(config, parentSha, path, blobSha), rest);
      r := CommitTree(remote, branch, message, parentSha, tree.value);
    }

    method CommitTree(remote: Remote, branch: string, message: string, parentSha: string, treeSha: string)
      returns (r: Result<string>)
      modifies remote
      ensures var run := Steps(config, remote.env, old(remote.Current()), branch, message, ToCommit(parentSha, treeSha));
              r == run.result && remote.Current() == run.store && remote.log == old(remote.log) + run.sent
    {
      var commit := CreateCommit(remote, message, treeSha, parentSha);
      if commit.Err? {
        return commit;
      }
      var updated := UpdateRef(remote, branch, commit.value);
      if updated.Err? {
        return updated;
      }
      return commit;
    }

    /** `findPullRequest`: the first open pull request from `org:head`
        into `base`, or none; any error also gives none. */
    method FindPullRequest(remote: Remote, head: string, base: string) returns (pr: Option<PullRequest>)
      modifies remote
      ensures remote.log == old(remote.log) + [PullsRequest(config, head, base)]
      ensures remote.Current() == old(remote.Current())
      ensures pr == FirstPull(Interpret(Handle(remote.env, old(remote.Current()), PullsRequest(config, head, base).action).0))
    {
      var req := PullsRequest(config, head, base);
      var pulls := Send(remote, req.verb, PullsEndpoint(config, head, base), req.action);
      pr := FirstPull(pulls);
    }
  }

  function PullsEndpoint(c: Config, head: string, base: string): string
  {
    "/pulls?head=" + c.organization + ":" + head + "&base=" + base + "&state=open"
  }

  function PullsRequest(c: Config, head: string, base: string): Request
  {
    Request("GET", RequestUrl(c, PullsEndpoint(c, head, base)), ListPulls(c.organization + ":" + head, base, "open"))
  }

  /** `pulls[0] || null`, with a failed request caught as `null`. */
  function FirstPull(r: Result<Data>): Option<PullRequest>
  {
    if r.Ok? && r.value.PullsData? && |r.value.pulls| >= 1 then Some(r.value.pulls[0]) else None
  }

  // ---------------------------------------------------------------------
  // Properties of the commit pipeline

  /** Only moving a branch changes the branches. */
  lemma ExchangeKeepsRefs(env: Env, s: Store, req: Request)
    requires !req.action.PatchRef?
    ensures Exchange(env, s, req).store.refs == s.refs
  {
  }

  /** A step that succeeded was answered, and a creation stored its object
      under the SHA it returned. */
  lemma ExchangeCreated(env: Env, s: Store, req: Request)
    requires req.action.PostBlob? || req.action.PostTree? || req.action.PostCommit?
    requires Exchange(env, s, req).result.Ok?
    ensures var run := Exchange(env, s, req);
            env.fault(StepOf(req.action)).Answer?
            && run.store.refs == s.refs
            && run.store.objects == s.objects[run.result.value := ObjectOf(req.action)]
  {
  }

  /** The object a creation request asks for. */
  function ObjectOf(a: Action): GitObject
    requires a.PostBlob? || a.PostTree? || a.PostCommit?
  {
    match a
    case PostBlob(c, e) => Blob(c, e)
    case PostTree(t, es) => Tree(t, es)
    case PostCommit(m, t, ps) => Commit(m, t, ps)
  }

  /** The last step: on success the branch, which existed, now points at
      the commit, and nothing else changed. */
  lemma MoveBranchOk(c: Config, env: Env, s: Store, branch: string, message: string, commitSha: string)
    requires Steps(c, env, s, branch, message, ToMoveBranch(commitSha)).result.Ok?
    ensures var run := Steps(c, env, s, branch, message, ToMoveBranch(commitSha));
            run.result == Ok(commitSha)
            && run.sent == [UpdateRefRequest(c, branch, commitSha)]
            && branch in s.refs
            && run.store == Store(s.refs[branch := commitSha], s.objects)
  {
  }

  lemma CommitStepOk(c: Config, env: Env, s: Store, branch: string, message: string, parentSha: string, treeSha: string)
    requires Steps(c, env, s, branch, message, ToCommit(parentSha, treeSha)).result.Ok?
    ensures var run := Steps(c, env, s, branch, message, ToCommit(parentSha, treeSha));
            var sha := run.result.value;
            run.sent == [CommitRequest(c, message, treeSha, parentSha), UpdateRefRequest(c, branch, sha)]
            && branch in s.refs
            && run.store.refs == s.refs[branch := sha]
            && sha in run.store.objects && run.store.objects[sha] == Commit(message, treeSha, [parentSha])
  {
    var q := CommitRequest(c, message, treeSha, parentSha);
    var run := Exchange(env, s, q);
    ExchangeCreated(env, s, q);
    MoveBranchOk(c, env, run.store, branch, message, run.result.value);
  }

  lemma TreeStepOk(c: Config, env: Env, s: Store, branch: string, message: string, path: string, parentSha: string, blobSha: string)
    requires Steps(c, env, s, branch, message, ToBuildTree(parentSha, path, blobSha)).result.Ok?
    ensures var run := Steps(c, env, s, branch, message, ToBuildTree(parentSha, path, blobSha));
            var sha := run.result.value;
            branch in s.refs && run.store.refs == s.refs[branch := sha]
            && exists treeSha ::
                 run.sent == [TreeRequest(c, parentSha, path, blobSha), CommitRequest(c, message, treeSha, parentSha), UpdateRefRequest(c, branch, sha)]
                 && sha in run.store.objects && run.store.objects[sha] == Commit(message, treeSha, [parentSha])
  {
    var q := TreeRequest(c, parentSha, path, blobSha);
    var run := Exchange(env, s, q);
    ExchangeCreated(env, s, q);
    CommitStepOk(c, env, run.store, branch, message, parentSha, run.result.value);
  }

  lemma BlobStepOk(c: Config, env: Env, s: Store, branch: string, message: string, content: string, path: string, parentSha: string)
    requires Steps(c, env, s, branch, message, ToStoreBlob(parentSha, content, path)).result.Ok?
    ensures var run := Steps(c, env, s, branch, message, ToStoreBlob(parentSha, content, path));
            var sha := run.result.value;
            branch in s.refs && run.store.refs == s.refs[branch := sha]
            && exists blobSha, treeSha ::
                 run.sent == [BlobRequest(c, content), TreeRequest(c, parentSha, path, blobSha),
                              CommitRequest(c, message, treeSha, parentSha), UpdateRefRequest(c, branch, sha)]
                 && sha in run.store.objects && run.store.objects[sha] == Commit(message, treeSha, [parentSha])
  {
    var q := BlobRequest(c, content);
    var run := Exchange(env, s, q);
    ExchangeCreated(env, s, q);
    TreeStepOk(c, env, run.store, branch, message, path, parentSha, run.result.value);
  }

  /** A successful commit sent exactly the five requests, in order, each
      built from the SHA the previous one returned: the tree is based on the
      prior tip and holds one blob entry at the path, the commit's only
      parent is the prior tip, and the branch was moved (with `force`) to the
      commit. Afterwards the branch points at the returned commit, and the
      commit object is what was asked for. */
  lemma CommitSucceeds(c: Config, env: Env, s: Store, branch: string, message: string, content: string, path: string)
    requires CommitFlow(c, env, s, branch, message, content, path).result.Ok?
    ensures var run := CommitFlow(c, env, s, branch, message, content, path);
            var sha := run.result.value;
            branch in s.refs && run.store.refs == s.refs[branch := sha]
            && exists blobSha, treeSha ::
                 run.sent == [GetRefRequest(c, branch), BlobRequest(c, content), TreeRequest(c, s.refs[branch], path, blobSha),
                              CommitRequest(c, message, treeSha, s.refs[branch]), UpdateRefRequest(c, branch, sha)]
                 && sha in run.store.objects && run.store.objects[sha] == Commit(message, treeSha, [s.refs[branch]])
  {
    var q := GetRefRequest(c, branch);
    var first := Exchange(env, s, q);
    assert branch in s.refs && first.store == s && first.result == Ok(s.refs[branch]);
    BlobStepOk(c, env, s, branch, message, content, path, s.refs[branch]);
  }

  /** From any stage, a failure stops the run: at most the remaining
      requests were sent, and unless the last of them was, the branches are
      as they were. */
  lemma {:induction false} StepsFail(c: Config, env: Env, s: Store, branch: string, message: string, stage: Stage)
    requires Steps(c, env, s, branch, message, stage).result.Err?
    ensures var run := Steps(c, env, s, branch, message, stage);
            1 <= |run.sent| <= Remaining(stage) + 1
            && run.sent[0] == NextRequest(c, branch, message, stage)
            && (|run.sent| <= Remaining(stage) ==> run.store.refs == s.refs)
    decreases Remaining(stage)
  {
    var q := NextRequest(c, branch, message, stage);
    var first := Exchange(env, s, q);
    if !stage.ToMoveBranch? {
      ExchangeKeepsRefs(env, s, q);
      if first.result.Ok? {
        StepsFail(c, env, first.store, branch, message, Next(stage, first.result.value));
      }
    }
  }

  /** A failure sends no further request: the requests sent are the first
      few of the five, and unless the fifth was sent the branch did not
      move. */
  lemma CommitFails(c: Config, env: Env, s: Store, branch: string, message: string, content: string, path: string)
    requires CommitFlow(c, env, s, branch, message, content, path).result.Err?
    ensures var run := CommitFlow(c, env, s, branch, message, content, path);
            var reqs := run.sent;
            1 <= |reqs| <= 5
            && reqs[0] == GetRefRequest(c, branch)
            && (|reqs| >= 2 ==> reqs[1] == BlobRequest(c, content))
            && (|reqs| < 5 ==> run.store.refs == s.refs)
  {
    var q := GetRefRequest(c, branch);
    var first := Exchange(env, s, q);
    ExchangeKeepsRefs(env, s, q);
    if first.result.Ok? {
      StepsFail(c, env, first.store, branch, message, ToStoreBlob(first.result.value, content, path));
    }
  }

  /** An unreadable answer to moving an existing branch: the branch has
      moved, the step fails. */
  lemma MoveUnreadable(c: Config, env: Env, s: Store, branch: string, message: string, commitSha: string)
    requires env.fault(UpdateRefStep) == Unreadable
    requires branch in s.refs
    ensures var run := Steps(c, env, s, branch, message, ToMoveBranch(commitSha));
            run.result.Err? && run.store.refs == s.refs[branch := commitSha]
            && run.sent == [UpdateRefRequest(c, branch, commitSha)]
  {
    var q := UpdateRefRequest(c, branch, commitSha);
    assert Handle(env, s, q.action) == (Delivered(None), s.(refs := s.refs[branch := commitSha]));
  }

  /** From any stage, when every remaining request is sent and GitHub's
      answer to the last fails validation, the run fails although the branch
      has moved to the commit the last request named. */
  lemma {:induction false} UnreadableMove(c: Config, env: Env, s: Store, branch: string, message: string, stage: Stage)
    requires env.fault(UpdateRefStep) == Unreadable
    requires branch in s.refs
    requires |Steps(c, env, s, branch, message, stage).sent| == Remaining(stage) + 1
    ensures var run := Steps(c, env, s, branch, message, stage);
            run.result.Err? && branch in run.store.refs
            && run.sent[|run.sent| - 1] == UpdateRefRequest(c, branch, run.store.refs[branch])
    decreases Remaining(stage)
  {
    if stage.ToMoveBranch? {
      MoveUnreadable(c, env, s, branch, message, stage.commitSha);
    } else {
      var q := NextRequest(c, branch, message, stage);
      var first := Exchange(env, s, q);
      ExchangeKeepsRefs(env, s, q);
      if first.result.Ok? {
        var rest := Steps(c, env, first.store, branch, message, Next(stage, first.result.value));
        UnreadableMove(c, env, first.store, branch, message, Next(stage, first.result.value));
        assert Steps(c, env, s, branch, message, stage) == SentBefore(q, rest);
        assert ([q] + rest.sent)[|rest.sent|] == rest.sent[|rest.sent| - 1];
      }
    }
  }

  /** When GitHub moves the branch but its answer fails validation, the
      commit reports an error although the branch has moved. */
  lemma MovedButFailed(c: Config, env: Env, s: Store, branch: string, message: string, content: string, path: string)
    requires env.fault(UpdateRefStep) == Unreadable
    requires |CommitFlow(c, env, s, branch, message, content, path).sent| == 5
    ensures var run := CommitFlow(c, env, s, branch, message, content, path);
            run.result.Err? && branch in run.store.refs && run.sent[4] == UpdateRefRequest(c, branch, run.store.refs[branch])
  {
    var q := GetRefRequest(c, branch);
    var first := Exchange(env, s, q);
    assert first.result.Ok?;
    UnreadableMove(c, env, first.store, branch, message, ToStoreBlob(first.result.value, content, path));
  }

  /** `findPullRequest` returns the first matching open pull request when
      GitHub answers, and none when it rejects the request or its answer
      fails validation. */
  lemma FindPullRequestSpec(c: Config, env: Env, s: Store, head: string, base: string)
    ensures var pr := FirstPull(Interpret(Handle(env, s, PullsRequest(c, head, base).action).0));
            var open := Matching(env.pulls, c.organization + ":" + head, base, "open");
            pr == (if env.fault(PullsStep).Answer? && |open| >= 1 then Some(open[0]) else None)
  {
  }

  /** Some pull request matches exactly when the filter keeps one, and the
      first one kept is the first that matches. */
  lemma {:induction false} MatchingFirst(pulls: seq<PullRequest>, head: string, base: string, state: string)
    ensures var m := Matching(pulls, head, base, state);
            |m| >= 1 <==> exists i :: 0 <= i < |pulls| && Matches(pulls[i], head, base, state)
    ensures var m := Matching(pulls, head, base, state);
            |m| >= 1 ==> exists i :: 0 <= i < |pulls| && pulls[i] == m[0] && Matches(m[0], head, base, state)
                          && forall j :: 0 <= j < i ==> !Matches(pulls[j], head, base, state)
  {
    if pulls != [] {
      var tail := pulls[1..];
      MatchingFirst(tail, head, base, state);
      if !Matches(pulls[0], head, base, state) {
        var m := Matching(tail, head, base, state);
        assert Matching(pulls, head, base, state) == m;
        if |m| >= 1 {
          var i :| 0 <= i < |tail| && tail[i] == m[0] && Matches(m[0], head, base, state)
                   && forall j :: 0 <= j < i ==> !Matches(tail[j], head, base, state);
          assert pulls[i + 1] == m[0];
          forall j | 0 <= j < i + 1 ensures !Matches(pulls[j], head, base, state) {
            if j > 0 { assert pulls[j] == tail[j - 1]; }
          }
        }
        forall i | 0 <= i < |pulls| && Matches(pulls[i], head, base, state)
          ensures |m| >= 1
        {
          assert i > 0 && tail[i - 1] == pulls[i];
        }
      } else {
        assert pulls[0] == Matching(pulls, head, base, state)[0];
      }
    }
  }
}
