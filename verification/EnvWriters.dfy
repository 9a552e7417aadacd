/**
 * Concurrent writers of one `.env`, each calling `rewrite_env_keys` with a request of its own: what the
 * file holds in the end, in terms of keys and lines.
 */
module EnvWriters {
  import opened Common
  import opened DotenvLines
  import opened DotenvAssignment
  import opened DotenvStructure
  import opened DotenvRewrite
  import opened DotenvFile
  import RP = RewriteProtocol

  /** The request behind each edit. */
  type Requests = RP.EditId -> Request

  function Update(requests: Requests): (RP.EditId, string) -> string {
    (e: RP.EditId, base: string) => NewContent(base, requests(e))
  }

  /** The requests of a history, applied one after the other. */
  function Applied(requests: Requests, initial: string, commits: seq<RP.Commit>): string {
    if commits == [] then initial
    else NewContent(Applied(requests, initial, commits[..|commits| - 1]), requests(commits[|commits| - 1].edit))
  }

  lemma {:induction false} ReplayApplies(requests: Requests, initial: string, commits: seq<RP.Commit>)
    ensures RP.Replay(Update(requests), initial, commits) == Applied(requests, initial, commits)
    decreases |commits|
  {
    if commits != [] { ReplayApplies(requests, initial, commits[..|commits| - 1]); }
  }

  /** In every interleaving the file is the initial one with every committed request applied, in commit order. */
  lemma EveryRequestCounts(requests: Requests, s: RP.State, ls: seq<RP.Label>)
    requires RP.Init(s) && RP.RunDerives(Update(requests), s, ls)
    ensures var z := RP.Run(s, ls);
            RP.TargetContent(z) == Applied(requests, RP.TargetContent(s), z.commits)
  {
    RP.NoLostUpdate(Update(requests), s, ls);
    ReplayApplies(requests, RP.TargetContent(s), RP.Run(s, ls).commits);
  }

  /**
   * The last writer's request shows in the file as it was meant, line by line, on top of whatever the
   * others had committed before it, if and only if it puts no addition behind an open quote, leaves no lone
   * CR in the way and uncovers no mark.
   */
  lemma LastRequestShows(requests: Requests, s: RP.State, ls: seq<RP.Label>)
    requires RP.Init(s) && RP.RunDerives(Update(requests), s, ls)
    requires var commits := RP.Run(s, ls).commits;
             commits != [] && var before := Applied(requests, RP.TargetContent(s), commits[..|commits| - 1]);
             Rewritable(StripBom(before).0, requests(commits[|commits| - 1].edit))
    ensures var commits := RP.Run(s, ls).commits;
            var before := Applied(requests, RP.TargetContent(s), commits[..|commits| - 1]);
            var r := requests(commits[|commits| - 1].edit);
            ReadLines(RP.TargetContent(RP.Run(s, ls))) == NewLines(ReadLines(before), r, DetectEol(StripBom(before).0))
            <==> KeepsLines(before, r)
  {
    EveryRequestCounts(requests, s, ls);
    var commits := RP.Run(s, ls).commits;
    ContentIsReadBack(Applied(requests, RP.TargetContent(s), commits[..|commits| - 1]), requests(commits[|commits| - 1].edit));
  }
}
