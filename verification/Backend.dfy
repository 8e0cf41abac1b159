/**
 Issuance and address registration as whole operations on the two collections, in the form of
 the service classes.  Between operations no registered wallet has an orphaned coupon.
 */
module Backend {
  import opened Wrappers
  import opened Coupons
  import opened Linking

  datatype RegisterResult = Updated(id: UserId) | EmailConflict | WalletConflict

  /** No coupon without an owner was paid for from a registered wallet. */
  predicate NoRegisteredOrphan(users: Users, t: Table) {
    forall u, k | u in users && k in t ::
      users[u].walletAddress == Some(t[k].payerAddress) ==> t[k].userId.Some?
  }

  lemma LinkThenNoneLeft(users: Users, t: Table, id: UserId, address: Address)
    requires UniqueUsers(users) && id in users && users[id].walletAddress == Some(ToLower(address))
    requires forall u, k | u in users && u != id && k in t ::
               users[u].walletAddress == Some(t[k].payerAddress) ==> t[k].userId.Some?
    ensures NoRegisteredOrphan(users, LinkOrphans(t, id, address))
  {
  }

  /** No coupon appears or goes, none changes but in its owner, and none gets an owner but the wallet's orphans. */
  predicate OnlyOrphansLinked(t: Table, t': Table, id: UserId, address: Address) {
    && t'.Keys == t.Keys
    && forall k | k in t ::
         && t'[k].(userId := None) == t[k].(userId := None)
         && (t'[k].userId != t[k].userId <==> t[k].userId.None? && t[k].payerAddress == ToLower(address))
         && (t'[k].userId != t[k].userId ==> t'[k].userId == Some(id))
  }

  lemma LinkedOnce(t: Table, t': Table, id: UserId, address: Address)
    requires OnlyOrphansLinked(t, t', id, address)
    ensures t' == LinkOrphans(t, id, address)
  {
    forall k | k in t
      ensures t'[k] == LinkOrphans(t, id, address)[k]
    {
      assert t'[k] == t[k].(userId := t'[k].userId);
    }
  }

  predicate IsStranger(users: Users, cognitoSub: string) {
    forall u | u in users :: users[u].cognitoSub != cognitoSub
  }

  predicate HasEmail(users: Users, email: string) {
    exists u :: u in users && users[u].email == email
  }

  class Services {
    const cfg: Config
    var users: Users
    var coupons: Table

    constructor (cfg: Config)
      ensures this.cfg == cfg && users == map[] && coupons == map[] && Valid()
    {
      this.cfg := cfg;
      users, coupons := map[], map[];
    }

    ghost predicate Valid()
      reads this
    {
      UniqueUsers(users) && NoRegisteredOrphan(users, coupons)
    }

    method FindByWalletAddress(a: Address) returns (found: Option<UserId>)
      ensures FoundByWallet(users, ToLower(a), found)
    {
      if u :| u in users && users[u].walletAddress == Some(ToLower(a)) {
        return Some(u);
      }
      return None;
    }

    /** The queue's job: a duplicate is skipped, an eligible payment gets its coupon and its owner. */
    method Handle(transfer: Transfer, code: string)
      requires Valid()
      modifies this`coupons
      ensures Valid()
      ensures exists found :: FoundByWallet(users, ToLower(transfer.from), found)
                           && coupons == Issue(cfg, old(coupons), transfer, code, found)
      ensures var k := ToLower(transfer.txHash);
              (k !in old(coupons) && k in coupons) <==>
                && ToLower(transfer.to) in cfg.merchantAddresses && transfer.amount >= cfg.minPayoutUsdtRaw
                && k !in old(coupons) && forall l | l in old(coupons) :: old(coupons)[l].code != code
    {
      var found := FindByWalletAddress(ToLower(transfer.from));
      LowerTwice(transfer.from);
      InsertsIff(cfg, coupons, transfer, code, found);
      if !Eligible(cfg, transfer) {
        return;
      }
      coupons := Issue(cfg, coupons, transfer, code, found);
    }

    /** Upsert by subject; `newId` is the identifier a new document would get. */
    method FindOrCreate(cognitoSub: string, email: string, newId: UserId) returns (id: Option<UserId>)
      requires Valid() && newId !in users
      modifies this`users
      ensures Valid()
      ensures id.Some? ==> id.value in users && users[id.value].cognitoSub == cognitoSub
      ensures forall u | u in old(users) :: u in users && users[u] == old(users)[u]
      ensures id == Some(newId) ==> users == old(users)[newId := User(cognitoSub, email, None)]
      ensures id != Some(newId) ==> users == old(users)
      ensures id.None? <==>
                && (exists u :: u in old(users) && old(users)[u].email == email)
                && forall u | u in old(users) :: old(users)[u].cognitoSub != cognitoSub
    {
      if u :| u in users && users[u].cognitoSub == cognitoSub {
        return Some(u);
      }
      if EmailTaken(users, email) {
        return None;
      }
      users := users[newId := User(cognitoSub, email, None)];
      return Some(newId);
    }

    method UpdateWalletAddress(id: UserId, address: Address) returns (ok: bool)
      requires UniqueUsers(users) && id in users
      modifies this`users
      ensures UniqueUsers(users)
      ensures ok <==> forall u | u in old(users) && u != id :: old(users)[u].walletAddress != Some(ToLower(address))
      ensures users == if ok then old(users)[id := old(users)[id].(walletAddress := Some(ToLower(address)))]
                        else old(users)
    {
      ok := !WalletTakenByOther(users, id, ToLower(address));
      if ok {
        users := users[id := users[id].(walletAddress := Some(ToLower(address)))];
      }
    }

    method LinkOrphanedCoupons(id: UserId, address: Address)
      modifies this`coupons
      ensures NoOrphan(coupons, ToLower(address)) && OnlyOrphansLinked(old(coupons), coupons, id, address)
    {
      coupons := LinkOrphans(coupons, id, address);
    }

    /** Find or create, set the address, link: afterwards every coupon of the wallet has an owner. */
    method RegisterAddress(cognitoSub: string, email: string, address: Address, newId: UserId)
      returns (r: RegisterResult)
      requires Valid() && newId !in users
      modifies this
      ensures Valid()
      ensures r.Updated? ==>
                && r.id in users && users[r.id].cognitoSub == cognitoSub
                && users[r.id].walletAddress == Some(ToLower(address))
                && coupons == LinkOrphans(old(coupons), r.id, address)
                && NoOrphan(coupons, ToLower(address))
                && users.Keys == old(users).Keys + {r.id}
                && (r.id in old(users) || (r.id == newId && users[r.id].email == email))
                && forall u | u in old(users) ::
                     users[u] == if u == r.id then old(users)[u].(walletAddress := Some(ToLower(address)))
                                else old(users)[u]
      ensures !r.Updated? ==> coupons == old(coupons)
      ensures r.EmailConflict? <==> IsStranger(old(users), cognitoSub) && HasEmail(old(users), email)
      ensures r.EmailConflict? ==> users == old(users)
      ensures r.WalletConflict? <==>
                && !(IsStranger(old(users), cognitoSub) && HasEmail(old(users), email))
                && exists u :: u in old(users) && old(users)[u].walletAddress == Some(ToLower(address))
                            && old(users)[u].cognitoSub != cognitoSub
    {
      var id := FindOrCreate(cognitoSub, email, newId);
      if id.None? {
        return EmailConflict;
      }
      var ok := UpdateWalletAddress(id.value, address);
      if !ok {
        return WalletConflict;
      }
      LinkThenNoneLeft(users, coupons, id.value, address);
      LinkOrphanedCoupons(id.value, address);
      LinkedOnce(old(coupons), coupons, id.value, address);
      return Updated(id.value);
    }
  }
}
