/**
 * The shop (shop.service.ts): buying an item with coins, and wearing or
 * taking off owned items.
 */
module Shop {
  import opened Outcomes
  import opened Store

  /** The user has an inventory row for the item (the `userId_itemId` unique key). */
  predicate Owns(inventory: map<nat, UserItem>, userId: nat, itemId: nat) {
    exists k :: k in inventory && inventory[k].userId == userId && inventory[k].itemId == itemId
  }

  /**
   * The checks buyItem makes before its transaction, in the order it makes
   * them: the item exists, the user does not own it yet, the user exists,
   * the user has the coins, and the user has the XP when the item asks for
   * any. On success, the item.
   */
  function CheckPurchase(items: map<nat, Item>, inventory: map<nat, UserItem>, users: map<nat, User>,
                         userId: nat, itemId: nat): (r: Result<Item>)
    ensures itemId !in items ==> r == Err(NotFound)
    ensures itemId in items && Owns(inventory, userId, itemId) ==> r == Err(Conflict)
    ensures itemId in items && !Owns(inventory, userId, itemId) && userId !in users ==> r == Err(NotFound)
    ensures (itemId in items && !Owns(inventory, userId, itemId) && userId in users &&
             users[userId].coins < items[itemId].priceCoins) ==> r == Err(BadRequest)
    ensures (itemId in items && !Owns(inventory, userId, itemId) && userId in users &&
             users[userId].coins >= items[itemId].priceCoins &&
             items[itemId].priceXp > 0 && users[userId].xp < items[itemId].priceXp) ==> r == Err(BadRequest)
    ensures r.Ok? <==>
      && itemId in items && !Owns(inventory, userId, itemId) && userId in users
      && users[userId].coins >= items[itemId].priceCoins
      && (items[itemId].priceXp == 0 || users[userId].xp >= items[itemId].priceXp)
    ensures r.Ok? ==> r.value == items[itemId]
  {
    if itemId !in items then Err(NotFound)
    else if Owns(inventory, userId, itemId) then Err(Conflict)
    else if userId !in users then Err(NotFound)
    else
      var item := items[itemId];
      var user := users[userId];
      if user.coins < item.priceCoins then Err(BadRequest)
      else if item.priceXp > 0 && user.xp < item.priceXp then Err(BadRequest)
      else Ok(item)
  }

  /**
   * buyItem. Every failed check leaves the store as it was. A purchase
   * applies its three writes together: the coins drop by exactly the
   * price (never below zero), one unequipped inventory row for the user and
   * item appears, and one SUCCESS purchase record with that price is
   * appended. XP is checked but not deducted. Each user still owns each
   * item at most once.
   */
  method BuyItem(db: Db, userId: nat, itemId: nat) returns (r: Result<(nat, UserItem)>)
    requires db.Valid()
    modifies db`users, db`inventory, db`purchases, db`nextId
    ensures db.Valid()
    ensures r.Err? <==> CheckPurchase(old(db.items), old(db.inventory), old(db.users), userId, itemId).Err?
    ensures r.Err? ==> r.error == CheckPurchase(old(db.items), old(db.inventory), old(db.users), userId, itemId).error
    ensures r.Err? ==>
      && db.users == old(db.users) && db.inventory == old(db.inventory)
      && db.purchases == old(db.purchases) && db.nextId == old(db.nextId)
    ensures r.Ok? ==>
      var price := db.items[itemId].priceCoins;
      var u := old(db.users)[userId];
      && u.coins >= price
      && db.users == old(db.users)[userId := u.(coins := u.coins - price)]
      && r.value == (old(db.nextId), UserItem(userId, itemId, false))
      && db.inventory == old(db.inventory)[r.value.0 := r.value.1]
      && db.purchases == old(db.purchases) + [Purchase(userId, itemId, price, Success)]
      && db.nextId == old(db.nextId) + 1
  {
    var check := CheckPurchase(db.items, db.inventory, db.users, userId, itemId);
    if check.Err? {
      return Err(check.error);
    }
    var id := Checkout(db, userId, itemId);
    r := Ok((id, UserItem(userId, itemId, false)));
  }

  /**
   * The `$transaction` of buyItem, once every check has passed: the three
   * writes, all of them.
   */
  method Checkout(db: Db, userId: nat, itemId: nat) returns (id: nat)
    requires db.Valid()
    requires CheckPurchase(db.items, db.inventory, db.users, userId, itemId).Ok?
    modifies db`users, db`inventory, db`purchases, db`nextId
    ensures db.Valid()
    ensures
      var price := db.items[itemId].priceCoins;
      var u := old(db.users)[userId];
      && u.coins >= price
      && db.users == old(db.users)[userId := u.(coins := u.coins - price)]
      && id == old(db.nextId) && db.nextId == id + 1
      && db.inventory == old(db.inventory)[id := UserItem(userId, itemId, false)]
      && db.purchases == old(db.purchases) + [Purchase(userId, itemId, price, Success)]
  {
    var item := db.items[itemId];
    Charge(db, userId, item.priceCoins);
    id := AddInventoryRow(db, UserItem(userId, itemId, false));
    db.purchases := db.purchases + [Purchase(userId, itemId, item.priceCoins, Success)];
  }

  /** The `decrement` of the purchase: the coins drop by a price they cover. */
  method Charge(db: Db, userId: nat, price: nat)
    requires db.Valid()
    requires userId in db.users && db.users[userId].coins >= price
    modifies db`users
    ensures db.Valid()
    ensures
      var u := old(db.users)[userId];
      db.users == old(db.users)[userId := u.(coins := u.coins - price)]
  {
    var user := db.users[userId];
    db.SetUser(userId, user.(coins := user.coins - price));
  }

  /** `userItem.create` for an item the user does not own yet, under a fresh id. */
  method AddInventoryRow(db: Db, row: UserItem) returns (id: nat)
    requires db.Valid()
    requires row.itemId in db.items && !row.equipped
    requires !Owns(db.inventory, row.userId, row.itemId)
    modifies db`inventory, db`nextId
    ensures db.Valid()
    ensures id == old(db.nextId) && db.nextId == id + 1
    ensures db.inventory == old(db.inventory)[id := row]
  {
    id := db.NewId();
    db.inventory := db.inventory[id := row];
  }

  /**
   * equipItem: NotFound for an unknown inventory row, BadRequest for a row
   * of another user; on either, nothing changes. Otherwise every row of
   * the user holding an item of the same type is taken off, and then the
   * chosen row is worn; rows of other users or other types are untouched,
   * so a user still wears at most one item of each type.
   */
  method EquipItem(db: Db, userId: nat, userItemId: nat) returns (r: Result<UserItem>)
    requires db.Valid()
    modifies db`inventory
    ensures db.Valid()
    ensures userItemId !in old(db.inventory) ==> r == Err(NotFound)
    ensures userItemId in old(db.inventory) && old(db.inventory)[userItemId].userId != userId ==> r == Err(BadRequest)
    ensures r.Err? ==> db.inventory == old(db.inventory)
    ensures userItemId in old(db.inventory) && old(db.inventory)[userItemId].userId == userId ==>
      var itemType := db.items[old(db.inventory)[userItemId].itemId].itemType;
      && r == Ok(old(db.inventory)[userItemId].(equipped := true))
      && db.inventory.Keys == old(db.inventory).Keys
      && db.inventory[userItemId] == r.value
      && (forall k :: k in old(db.inventory) && k != userItemId ==>
            if SameSlot(db.items, old(db.inventory)[k], userId, itemType)
            then db.inventory[k] == old(db.inventory)[k].(equipped := false)
            else db.inventory[k] == old(db.inventory)[k])
      && (forall k :: k in db.inventory && k != userItemId && SameSlot(db.items, db.inventory[k], userId, itemType) ==>
            !db.inventory[k].equipped)
  {
    if userItemId !in db.inventory {
      return Err(NotFound);
    }
    var userItem := db.inventory[userItemId];
    if userItem.userId != userId {
      return Err(BadRequest);
    }
    var itemType := db.items[userItem.itemId].itemType;
    UnequipSlot(db, userId, itemType);
    var equipped := db.inventory[userItemId].(equipped := true);
    PutOnKeepsValid(db.items, db.inventory, userItemId, userId, itemType);
    db.inventory := db.inventory[userItemId := equipped];
    r := Ok(equipped);
  }

  /** Wearing a row keeps the inventory valid when nothing else of its slot is worn. */
  lemma PutOnKeepsValid(items: map<nat, Item>, inventory: map<nat, UserItem>, id: nat, userId: nat, itemType: ItemType)
    requires ValidInventory(items, inventory)
    requires id in inventory && SameSlot(items, inventory[id], userId, itemType)
    requires forall k :: k in inventory && k != id && SameSlot(items, inventory[k], userId, itemType) ==>
      !inventory[k].equipped
    ensures ValidInventory(items, inventory[id := inventory[id].(equipped := true)])
  {
  }

  /** Taking rows off, and changing nothing else, keeps the inventory valid. */
  lemma TakeOffKeepsValid(items: map<nat, Item>, inventory: map<nat, UserItem>, inventory': map<nat, UserItem>)
    requires ValidInventory(items, inventory)
    requires inventory'.Keys == inventory.Keys
    requires forall k :: k in inventory ==>
      inventory'[k] == inventory[k] || inventory'[k] == inventory[k].(equipped := false)
    ensures ValidInventory(items, inventory')
  {
  }

  /** The row belongs to the user and holds an item of the given type. */
  predicate SameSlot(items: map<nat, Item>, row: UserItem, userId: nat, itemType: ItemType) {
    row.userId == userId && row.itemId in items && items[row.itemId].itemType == itemType
  }

  /**
   * The `updateMany` of equipItem: takes off every item of the given type
   * the user wears; afterwards the user wears nothing of that type.
   */
  method UnequipSlot(db: Db, userId: nat, itemType: ItemType)
    requires db.Valid()
    modifies db`inventory
    ensures db.Valid()
    ensures db.inventory.Keys == old(db.inventory).Keys
    ensures forall k :: k in db.inventory ==>
      if SameSlot(db.items, old(db.inventory)[k], userId, itemType)
      then db.inventory[k] == old(db.inventory)[k].(equipped := false)
      else db.inventory[k] == old(db.inventory)[k]
    ensures forall k :: k in db.inventory && SameSlot(db.items, db.inventory[k], userId, itemType) ==>
      !db.inventory[k].equipped
  {
    var inventory := db.inventory;
    var updated := map k | k in inventory ::
      if SameSlot(db.items, inventory[k], userId, itemType) then inventory[k].(equipped := false) else inventory[k];
    TakeOffKeepsValid(db.items, inventory, updated);
    db.inventory := updated;
  }

  /** unequipItem: the same ownership checks as equipItem; then that one row is taken off. */
  method UnequipItem(db: Db, userId: nat, userItemId: nat) returns (r: Result<UserItem>)
    requires db.Valid()
    modifies db`inventory
    ensures db.Valid()
    ensures userItemId !in old(db.inventory) ==> r == Err(NotFound)
    ensures userItemId in old(db.inventory) && old(db.inventory)[userItemId].userId != userId ==> r == Err(BadRequest)
    ensures r.Err? ==> db.inventory == old(db.inventory)
    ensures userItemId in old(db.inventory) && old(db.inventory)[userItemId].userId == userId ==>
      && r == Ok(old(db.inventory)[userItemId].(equipped := false))
      && db.inventory == old(db.inventory)[userItemId := r.value]
  {
    if userItemId !in db.inventory {
      return Err(NotFound);
    }
    var userItem := db.inventory[userItemId];
    if userItem.userId != userId {
      return Err(BadRequest);
    }
    var unequipped := userItem.(equipped := false);
    db.inventory := db.inventory[userItemId := unequipped];
    r := Ok(unequipped);
  }
}
