/**
 * The claim footprint test: whether a block position lies inside a land claim
 * of the owner or, when allies count, of a player whose access list names the owner.
 */
module Claims {
  import opened Wrappers
  import opened Geometry

  /** A player's persistent identifier. */
  type PlayerId = string

  /** A land-claim block a player placed, and whether it is flagged primary. */
  datatype ClaimBlock = ClaimBlock(pos: Vec3, primary: bool)

  /**
   * A persistent player record: identifier, access list (absent when the player
   * has none) and land-claim blocks (an absent list reads as empty).
   */
  datatype PlayerData = PlayerData(id: PlayerId, acl: Option<set<PlayerId>>, claims: seq<ClaimBlock>)

  /** Whether a player's claims count for the owner. */
  predicate Qualifies(player: PlayerData, owner: PlayerId, includeAllies: bool)
  {
    player.id == owner || (includeAllies && player.acl.Some? && owner in player.acl.value)
  }

  /** The footprint of a claim anchored at `anchor`: a column, bounded on x and z only. */
  predicate Covers(anchor: Vec3, pos: Vec3, claimSize: int)
  {
    Abs(anchor.x - pos.x) <= claimSize && Abs(anchor.z - pos.z) <= claimSize
  }

  /** Whether some primary claim block at index `from` or later covers `pos`. */
  function PrimaryCovers(claims: seq<ClaimBlock>, pos: Vec3, claimSize: int, from: nat): bool
    requires from <= |claims|
    decreases |claims| - from
  {
    if from == |claims| then false
    else if claims[from].primary && Covers(claims[from].pos, pos, claimSize) then true
    else PrimaryCovers(claims, pos, claimSize, from + 1)
  }

  /** Whether some qualifying player at index `from` or later has a primary claim covering `pos`. */
  function AnyPlayerCovers(players: seq<PlayerData>, owner: PlayerId, pos: Vec3, claimSize: int, includeAllies: bool,
                           from: nat): bool
    requires from <= |players|
    decreases |players| - from
  {
    if from == |players| then false
    else if Qualifies(players[from], owner, includeAllies) && PrimaryCovers(players[from].claims, pos, claimSize, 0) then true
    else AnyPlayerCovers(players, owner, pos, claimSize, includeAllies, from + 1)
  }

  /** The footprint test over every known player. */
  function IsBlockInsideClaim(players: seq<PlayerData>, owner: PlayerId, pos: Vec3, claimSize: int, includeAllies: bool)
    : bool
  {
    AnyPlayerCovers(players, owner, pos, claimSize, includeAllies, 0)
  }

  /** The walk over one player's claims finds a covering primary claim block exactly when there is one. */
  lemma {:induction false} PrimaryCoversMeans(claims: seq<ClaimBlock>, pos: Vec3, claimSize: int, from: nat)
    requires from <= |claims|
    ensures PrimaryCovers(claims, pos, claimSize, from)
        <==> exists k :: from <= k < |claims| && claims[k].primary && Covers(claims[k].pos, pos, claimSize)
    decreases |claims| - from
  {
    if from < |claims| {
      PrimaryCoversMeans(claims, pos, claimSize, from + 1);
    }
  }

  /** The walk over the players finds a qualifying player's covering claim exactly when there is one. */
  lemma {:induction false} AnyPlayerCoversMeans(players: seq<PlayerData>, owner: PlayerId, pos: Vec3, claimSize: int,
                                                includeAllies: bool, from: nat)
    requires from <= |players|
    ensures AnyPlayerCovers(players, owner, pos, claimSize, includeAllies, from)
        <==> (exists i, k :: from <= i < |players| && 0 <= k < |players[i].claims| &&
               Qualifies(players[i], owner, includeAllies) && players[i].claims[k].primary &&
               Covers(players[i].claims[k].pos, pos, claimSize))
    decreases |players| - from
  {
    if from < |players| {
      PrimaryCoversMeans(players[from].claims, pos, claimSize, 0);
      AnyPlayerCoversMeans(players, owner, pos, claimSize, includeAllies, from + 1);
    }
  }

  /**
   * A position is inside exactly when some player who qualifies for the owner
   * has a primary claim block whose footprint covers it.
   */
  lemma InsideClaimMeans(players: seq<PlayerData>, owner: PlayerId, pos: Vec3, claimSize: int, includeAllies: bool)
    ensures IsBlockInsideClaim(players, owner, pos, claimSize, includeAllies)
        <==> (exists i, k :: 0 <= i < |players| && 0 <= k < |players[i].claims| &&
               Qualifies(players[i], owner, includeAllies) && players[i].claims[k].primary &&
               Covers(players[i].claims[k].pos, pos, claimSize))
  {
    AnyPlayerCoversMeans(players, owner, pos, claimSize, includeAllies, 0);
  }

  /** The vertical coordinate never affects the test. */
  lemma InsideClaimIgnoresHeight(players: seq<PlayerData>, owner: PlayerId, pos: Vec3, claimSize: int,
                                 includeAllies: bool, y: int)
    ensures IsBlockInsideClaim(players, owner, pos, claimSize, includeAllies)
         == IsBlockInsideClaim(players, owner, pos.(y := y), claimSize, includeAllies)
  {
    var lifted := pos.(y := y);
    InsideClaimMeans(players, owner, pos, claimSize, includeAllies);
    InsideClaimMeans(players, owner, lifted, claimSize, includeAllies);
    if IsBlockInsideClaim(players, owner, pos, claimSize, includeAllies) {
      var i, k :| 0 <= i < |players| && 0 <= k < |players[i].claims| &&
        Qualifies(players[i], owner, includeAllies) && players[i].claims[k].primary &&
        Covers(players[i].claims[k].pos, pos, claimSize);
      assert Covers(players[i].claims[k].pos, lifted, claimSize);
    }
    if IsBlockInsideClaim(players, owner, lifted, claimSize, includeAllies) {
      var i, k :| 0 <= i < |players| && 0 <= k < |players[i].claims| &&
        Qualifies(players[i], owner, includeAllies) && players[i].claims[k].primary &&
        Covers(players[i].claims[k].pos, lifted, claimSize);
      assert Covers(players[i].claims[k].pos, pos, claimSize);
    }
  }

  /** Players that do not qualify never make a position inside: dropping them changes nothing. */
  lemma OnlyQualifyingPlayersCount(players: seq<PlayerData>, owner: PlayerId, pos: Vec3, claimSize: int,
                                   includeAllies: bool, other: PlayerData)
    requires !Qualifies(other, owner, includeAllies)
    ensures IsBlockInsideClaim(players + [other], owner, pos, claimSize, includeAllies)
         == IsBlockInsideClaim(players, owner, pos, claimSize, includeAllies)
  {
    var extended := players + [other];
    InsideClaimMeans(players, owner, pos, claimSize, includeAllies);
    InsideClaimMeans(extended, owner, pos, claimSize, includeAllies);
    if IsBlockInsideClaim(extended, owner, pos, claimSize, includeAllies) {
      var i, k :| 0 <= i < |extended| && 0 <= k < |extended[i].claims| &&
        Qualifies(extended[i], owner, includeAllies) && extended[i].claims[k].primary &&
        Covers(extended[i].claims[k].pos, pos, claimSize);
      assert i < |players| && extended[i] == players[i];
    }
    if IsBlockInsideClaim(players, owner, pos, claimSize, includeAllies) {
      var i, k :| 0 <= i < |players| && 0 <= k < |players[i].claims| &&
        Qualifies(players[i], owner, includeAllies) && players[i].claims[k].primary &&
        Covers(players[i].claims[k].pos, pos, claimSize);
      assert extended[i] == players[i];
    }
  }
}
