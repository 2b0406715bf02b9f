/** Stop-sequence detection: the assistant's reply is cut where the model
    starts to invent the next user turn. */
module StopSequence {
  import opened Text

  const UserMarker: string := "User:"
  const NewlineUserMarker: string := "\nUser:"

  /** A reply the model has continued with an invented user turn: it starts
      with "User:" or holds "\nUser:" anywhere. */
  predicate StopCheck(response: string)
  {
    StartsWith(response, UserMarker) || Contains(response, NewlineUserMarker)
  }

  /** The stop test as the client computes it on the whole accumulated
      response: `find("User:") == 0 || find("\nUser:") != npos`. */
  predicate StopTest(response: string)
    ensures StopTest(response) <==> StopCheck(response)
  {
    Find(response, UserMarker) == Some(0) || Find(response, NewlineUserMarker).Some?
  }

  /** The offset at which a response that fails the stop test is cut. */
  function StopOffset(response: string): (k: nat)
    requires StopCheck(response)
    ensures k <= |response|
    ensures StartsWith(response, UserMarker) ==> k == 0
    ensures !StartsWith(response, UserMarker) ==>
              OccursAt(response, NewlineUserMarker, k) &&
              forall j: nat :: j < k ==> !OccursAt(response, NewlineUserMarker, j)
    ensures !StopCheck(response[..k])
  {
    TruncationRemovesMarker(response);
    if Find(response, UserMarker) == Some(0) then 0
    else Find(response, NewlineUserMarker).value
  }

  /** Cutting at the computed offset leaves a prefix that passes the stop
      test: it neither starts with "User:" nor holds "\nUser:". */
  lemma TruncationRemovesMarker(response: string)
    requires StopCheck(response)
    ensures var k := if Find(response, UserMarker) == Some(0) then 0
                     else Find(response, NewlineUserMarker).value;
            k <= |response| && !StopCheck(response[..k])
  {
    var k := if Find(response, UserMarker) == Some(0) then 0
             else Find(response, NewlineUserMarker).value;
    var p := response[..k];
    if StartsWith(p, UserMarker) {
      OccursInPrefix(response, k, UserMarker, 0);
      assert false;
    }
    if Contains(p, NewlineUserMarker) {
      var j: nat :| j <= |p| && OccursAt(p, NewlineUserMarker, j);
      OccursInPrefix(response, k, NewlineUserMarker, j);
      assert false;
    }
  }
}
