/** The cache and the texture store as the program keeps them, changed in place. */
module Backgrounds {
  import opened Wrappers
  import opened PictureCache

  class ImageStore {
    var stored: map<ImageId, Picture>

    constructor ()
      ensures stored == map[]
    {
      stored := map[];
    }

    /** Upload one picture, replacing any under the same id; refuse one whose bytes do not
        fill its size. */
    method Upload(id: ImageId, pic: Picture) returns (ok: bool)
      modifies this
      ensures ok <==> Uploads(pic)
      ensures stored == if ok then old(stored)[id := pic] else old(stored)
    {
      if pic.width == 0 || pic.height == 0 || |pic.pixels| != pic.width * pic.height * 4 {
        return false;
      }
      stored := stored[id := pic];
      return true;
    }

    method Retain(keep: set<ImageId>)
      modifies this
      ensures stored == map i | i in old(stored) && i in keep :: old(stored)[i]
    {
      stored := map i | i in stored && i in keep :: stored[i];
    }
  }

  class Pictures {
    const world: World
    var entries: map<string, Entry>
    var generation: nat

    constructor (world: World)
      ensures this.world == world && entries == map[] && generation == 0
    {
      this.world := world;
      entries, generation := map[], 0;
    }

    function Model(store: ImageStore): (c: Cache)
      reads this, store
    {
      Cache(entries, generation, store.stored)
    }

    method Load(store: ImageStore, setting: string, looks: Looks) returns (slot: Slot)
      modifies store
      ensures slot == LoadSlot(world, setting, looks)
      ensures store.stored == Upload(old(store.stored), world, setting, looks)
    {
      if looks.read.None? {
        return Failed(looks.stamp);
      }
      var decoded := world.picture(setting, looks.read.value);
      if decoded.None? {
        return Failed(looks.stamp);
      }
      var id := world.idOf(setting);
      var ok := store.Upload(id, decoded.value);
      if !ok {
        return Failed(looks.stamp);
      }
      return Ready(id, decoded.value.width, decoded.value.height, looks.stamp);
    }

    /** The picture for a settings path, loading it the first time it is seen. */
    method Get(store: ImageStore, setting: string, looks: Looks) returns (answer: Option<(ImageId, nat, nat)>)
      modifies this, store
      ensures Model(store) == PictureCache.Get(world, old(Model(store)), setting, looks)
      ensures answer == GetAnswer(world, old(Model(store)), setting, looks)
    {
      if Blank(world, setting) {
        return None;
      }
      if setting in entries {
        var entry := entries[setting];
        if entry.seen == generation {
          return Answer(entry.slot);
        }
        entries := entries[setting := entry.(seen := generation)];
        if looks.check.Some? && looks.check == entry.slot.stamp {
          return Answer(entry.slot);
        }
      }
      var slot := Load(store, setting, looks);
      entries := entries[setting := Entry(slot, generation)];
      return Answer(slot);
    }

    /** Start a new generation, forgetting what the configuration no longer names. */
    method Invalidate(store: ImageStore)
      modifies this, store
      ensures Model(store) == PictureCache.Invalidate(old(Model(store)))
    {
      entries := map p | p in entries && entries[p].seen == generation :: entries[p];
      assert entries == Asked(old(Model(store)));
      store.Retain(LiveIds(entries));
      generation := generation + 1;
    }
  }
}
