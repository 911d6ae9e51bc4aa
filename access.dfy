/**
 The allow-list check that every chat command runs before doing anything.
 */
module Access {

  /** The user ids allowed to use the bot, in the order the list holds them. */
  const AllowedUserIds: seq<int> := [123456789, 987654321]

  /**
   Python's `x in list`: scans the list from the front and stops at the
   first element equal to `x`.
   */
  function ListContains(items: seq<int>, x: int): (found: bool)
    ensures found <==> exists i :: 0 <= i < |items| && items[i] == x
  {
    if items == [] then false
    else if items[0] == x then true
    else
      var rest := ListContains(items[1..], x);
      assert forall i :: 1 <= i < |items| ==> items[i] == items[1..][i - 1];
      rest
  }

  /** `user_allowed`: true exactly for the ids on the allow-list. */
  function UserAllowed(userId: int): (allowed: bool)
    ensures allowed <==> userId in AllowedUserIds
    ensures allowed <==> userId == 123456789 || userId == 987654321
  {
    ListContains(AllowedUserIds, userId)
  }
}
