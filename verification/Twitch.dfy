/** The batched user lookup: one request for many ids, its answer put back in the order of the ids. */
module Twitch {
  import opened Allocation

  /** What one answer of the API says, whatever order it lists the users in. */
  function Directory(answer: seq<User>): map<string, string> {
    if answer == [] then map[]
    else Directory(answer[..|answer| - 1])[answer[|answer| - 1].id := answer[|answer| - 1].login]
  }

  /** The directory knows exactly the users of the answer, each by a login it was answered with. */
  lemma {:induction false} DirectoryIsTheAnswer(answer: seq<User>, id: string)
    ensures id in Directory(answer) <==> exists i :: 0 <= i < |answer| && answer[i].id == id
    ensures id in Directory(answer) ==> User(id, Directory(answer)[id]) in answer
  {
    if answer == [] {
    } else {
      var n := |answer| - 1;
      DirectoryIsTheAnswer(answer[..n], id);
      assert answer == answer[..n] + [answer[n]];
      if answer[n].id == id {
        assert answer[n] == User(id, answer[n].login);
      } else if i :| 0 <= i < |answer| && answer[i].id == id {
        assert answer[..n][i].id == id;
      }
    }
  }

  /** Look up a list of ids. An id the API does not know, or any id when the request failed, keeps
      the empty user at its position. */
  method GetUsers(keys: seq<string>, answered: bool, answer: seq<User>)
    returns (users: seq<User>, found: seq<bool>)
    ensures users == Resolve(if answered then Directory(answer) else map[], keys)
    ensures |found| == |keys|
    ensures forall i :: 0 <= i < |keys| ==> (found[i] <==> answered && keys[i] in Directory(answer))
  {
    users := seq(|keys|, _ => User("", ""));
    found := seq(|keys|, _ => false);
    if !answered {
      return;
    }

    var mp: map<string, User> := map[];
    var j := 0;
    while j < |answer|
      invariant 0 <= j <= |answer|
      invariant mp.Keys == Directory(answer[..j]).Keys
      invariant forall id :: id in mp ==> mp[id] == User(id, Directory(answer[..j])[id])
    {
      assert answer[..j + 1][..j] == answer[..j];
      mp := mp[answer[j].id := answer[j]];
      j := j + 1;
    }
    assert answer[..j] == answer;

    var i := 0;
    while i < |keys|
      invariant 0 <= i <= |keys| && |users| == |keys| && |found| == |keys|
      invariant forall k :: 0 <= k < i ==>
        users[k] == (if keys[k] in mp then mp[keys[k]] else User("", "")) && (found[k] <==> keys[k] in mp)
      invariant forall k :: i <= k < |keys| ==> users[k] == User("", "") && !found[k]
    {
      if keys[i] in mp {
        users := users[i := mp[keys[i]]];
        found := found[i := true];
      }
      i := i + 1;
    }
  }
}
