/**
 * `get_video_source` once the browser is taken away: the URLs of the requests the episode
 * page issues before the wait gives up, and the `src` of its `<video>` element as a fallback.
 */
module Video {
  import opened Text
  import opened Models

  /** `".mp4" in url or ".m3u8" in url` */
  predicate IsVideoCandidate(url: string)
  {
    Contains(url, ".mp4") || Contains(url, ".m3u8")
  }

  /** The first candidate among the requests, the one that completes the future. */
  function FirstVideoCandidate(requests: seq<string>): (r: Option<string>)
    ensures r.Some? ==> IsVideoCandidate(r.value) && r.value in requests
  {
    if requests == [] then None
    else if IsVideoCandidate(requests[0]) then Some(requests[0])
    else FirstVideoCandidate(requests[1..])
  }

  /** The first candidate is the candidate at the least position, and there is none exactly when no request is a candidate. */
  lemma {:induction false} FirstVideoCandidateIsLeast(requests: seq<string>)
    ensures FirstVideoCandidate(requests).None? <==> forall k :: 0 <= k < |requests| ==> !IsVideoCandidate(requests[k])
    ensures forall k :: 0 <= k < |requests| && IsVideoCandidate(requests[k])
              && (forall m :: 0 <= m < k ==> !IsVideoCandidate(requests[m]))
              ==> FirstVideoCandidate(requests) == Some(requests[k])
  {
    if requests != [] && !IsVideoCandidate(requests[0]) {
      var rest := requests[1..];
      FirstVideoCandidateIsLeast(rest);
      assert forall k :: 1 <= k < |requests| ==> requests[k] == rest[k - 1];
      forall k | 0 <= k < |requests| && IsVideoCandidate(requests[k]) && (forall m :: 0 <= m < k ==> !IsVideoCandidate(requests[m]))
        ensures FirstVideoCandidate(requests) == Some(requests[k])
      {
        assert k > 0;
        assert forall m :: 0 <= m < k - 1 ==> !IsVideoCandidate(rest[m]) by {
          forall m | 0 <= m < k - 1 ensures !IsVideoCandidate(rest[m]) {
            assert rest[m] == requests[m + 1];
          }
        }
      }
    }
  }

  /** Once a candidate has been seen, later requests change nothing. */
  lemma {:induction false} LaterRequestsAreIgnored(earlier: seq<string>, later: seq<string>)
    requires FirstVideoCandidate(earlier).Some?
    ensures FirstVideoCandidate(earlier + later) == FirstVideoCandidate(earlier)
  {
    if !IsVideoCandidate(earlier[0]) {
      LaterRequestsAreIgnored(earlier[1..], later);
      assert (earlier + later)[1..] == earlier[1..] + later;
    }
  }

  /**
   * The request handler sets the result once, on the first candidate; when no candidate
   * came before the timeout the `<video>` element's `src` (or `None`) is returned.
   */
  method GetVideoSource(requests: seq<string>, fallback: Option<string>) returns (videoUrl: Option<string>)
    ensures FirstVideoCandidate(requests).Some? ==> videoUrl == FirstVideoCandidate(requests)
    ensures FirstVideoCandidate(requests).None? ==> videoUrl == fallback
  {
    var found: Option<string> := None;
    for i := 0 to |requests|
      invariant found == FirstVideoCandidate(requests[..i])
    {
      var url := requests[i];
      if IsVideoCandidate(url) && found.None? {
        found := Some(url);
      }
      NextRequest(requests[..i], url);
      assert requests[..i + 1] == requests[..i] + [url];
    }
    assert requests[..|requests|] == requests;
    if found.Some? {
      videoUrl := found;
    } else {
      videoUrl := fallback;
    }
  }

  lemma {:induction false} NextRequest(seen: seq<string>, url: string)
    ensures FirstVideoCandidate(seen + [url])
            == if FirstVideoCandidate(seen).Some? then FirstVideoCandidate(seen)
               else if IsVideoCandidate(url) then Some(url) else None
  {
    if seen == [] {
      assert [url][1..] == [];
    } else {
      if FirstVideoCandidate(seen).Some? {
        LaterRequestsAreIgnored(seen, [url]);
      } else {
        NextRequest(seen[1..], url);
        assert (seen + [url])[1..] == seen[1..] + [url];
      }
    }
  }
}
