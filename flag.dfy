/**
 * The flag record of `FlagBase` (siteflags/models.py) with its uniqueness key.
 *
 * A content type is an opaque integer tag and a flagged object is a pair
 * (content type, object id). A user is known only by its id; id 0 stands for
 * a user that was never saved (an anonymous principal).
 */
module Flags {
  import opened Wrappers

  /** A flaggable object: its content type tag and its primary key. */
  datatype Target = Target(contentType: int, objectId: nat)

  /** One row of the flag table. `timeCreated` is supplied by the caller. */
  datatype Flag = Flag(
    contentType: int,
    objectId: nat,
    userId: nat,
    status: Option<int>,
    note: string,
    timeCreated: nat)

  /** The columns of `unique_together`: content type, object, user, status. */
  datatype FlagKey = FlagKey(contentType: int, objectId: nat, userId: nat, status: Option<int>)

  function KeyOf(f: Flag): FlagKey
  {
    FlagKey(f.contentType, f.objectId, f.userId, f.status)
  }

  function TargetOf(f: Flag): Target
  {
    Target(f.contentType, f.objectId)
  }

  /** No two rows of the table share a uniqueness key. */
  ghost predicate Unique(rows: seq<Flag>)
  {
    forall i, j :: 0 <= i < j < |rows| ==> KeyOf(rows[i]) != KeyOf(rows[j])
  }

  /** Some row of the table already carries key `k`. */
  predicate HasKey(rows: seq<Flag>, k: FlagKey)
  {
    exists i :: 0 <= i < |rows| && KeyOf(rows[i]) == k
  }

  /** Appending a row whose key is new keeps the keys unique. */
  lemma AppendFreshKeyKeepsUnique(rows: seq<Flag>, f: Flag)
    requires Unique(rows)
    requires !HasKey(rows, KeyOf(f))
    ensures Unique(rows + [f])
  {
  }
}
