/**
 * Bringing storage up and switching its medium, with every driver call free to fail.
 *
 * Beside the firmware's own bookkeeping the class counts, for each low-level resource, how often a
 * driver granted it and how often the firmware gave it back; the difference is what is really held.
 * It also counts the drivers' refusals, so that a call can be seen to fail only because of one.
 */
module HalStorage {

  datatype Media = SpiFlash | SdMmc
  datatype MountPoint = MountApp | MountUsb
  datatype EspErr = EspOk | InvalidState | EspFail

  /** Grants and returns of one resource. */
  datatype Ledger = Ledger(granted: nat, returned: nat) {
    predicate Holds(n: nat) {
      granted == returned + n
    }
  }

  class HalStorage {
    var driverInstalled: bool
    var storageCreated: bool
    var media: Media
    var storageHandle: bool
    var wlHandle: bool
    var sdCard: bool
    var sdHostInit: bool
    var sdSpiAttached: bool
    var spiBusInited: bool
    var locked: bool
    var mountPoint: MountPoint
    ghost var wear: Ledger
    ghost var cards: Ledger
    ghost var hosts: Ledger
    ghost var devices: Ledger
    ghost var storages: Ledger
    ghost var undeleted: nat
    ghost var refusals: nat

    /** What the medium of a live storage holds. */
    predicate HoldsFlash()
      reads this
    {
      wlHandle && !sdCard && !sdHostInit && !sdSpiAttached
    }

    predicate HoldsCard()
      reads this
    {
      !wlHandle && sdCard && sdHostInit && sdSpiAttached
    }

    predicate HoldsNothing()
      reads this
    {
      !wlHandle && !sdCard && !sdHostInit && !sdSpiAttached
    }

    /** The records match the drivers: what is marked held was granted and not returned, once. */
    ghost predicate Balanced()
      reads this
    {
      && wear.Holds(if wlHandle then 1 else 0)
      && cards.Holds(if sdCard then 1 else 0)
      && hosts.Holds(if sdHostInit then 1 else 0)
      && devices.Holds(if sdSpiAttached then 1 else 0)
      && storages.Holds((if storageHandle then 1 else 0) + undeleted)
    }

    ghost predicate Valid()
      reads this
    {
      && (storageHandle <==> storageCreated)
      && (storageCreated ==> if media == SpiFlash then HoldsFlash() else HoldsCard())
      && (!storageCreated ==> HoldsNothing())
      && (driverInstalled ==> storageCreated)
      && Balanced()
    }

    constructor ()
      ensures Valid() && !locked && !storageCreated && !driverInstalled && media == SpiFlash
    {
      driverInstalled, storageCreated, media, storageHandle := false, false, SpiFlash, false;
      wlHandle, sdCard, sdHostInit, sdSpiAttached, spiBusInited := false, false, false, false, false;
      locked, mountPoint := false, MountUsb;
      wear, cards, hosts, devices, storages := Ledger(0, 0), Ledger(0, 0), Ledger(0, 0), Ledger(0, 0), Ledger(0, 0);
      undeleted, refusals := 0, 0;
    }

    /** A driver's answer. */
    method Ask() returns (ok: bool)
      modifies this`refusals
      ensures refusals == old(refusals) + if ok then 0 else 1
    {
      ok := *;
      if !ok { refusals := refusals + 1; }
    }

    method Lock()
      requires !locked
      modifies this`locked
      ensures locked
    {
      locked := true;
    }

    method Unlock()
      requires locked
      modifies this`locked
      ensures !locked
    {
      locked := false;
    }

    // ---------------------------------------------------------------- drivers and low-level resources

    method InstallDriver() returns (ok: bool)
      modifies this`driverInstalled, this`refusals
      ensures ok <==> driverInstalled
      ensures old(driverInstalled) ==> driverInstalled
      ensures refusals == old(refusals) + if ok then 0 else 1
    {
      if driverInstalled { return true; }
      ok := Ask();
      if ok { driverInstalled := true; }
    }

    method UninstallDriver() returns (ok: bool)
      modifies this`driverInstalled, this`refusals
      ensures ok <==> !driverInstalled
      ensures !old(driverInstalled) ==> ok
      ensures refusals == old(refusals) + if ok then 0 else 1
    {
      if !driverInstalled { return true; }
      ok := Ask();
      if ok { driverInstalled := false; }
    }

    /** Switches the storage to the application; a directory that does not open puts it back to USB. */
    method MountToApplication() returns (ok: bool)
      modifies this`mountPoint, this`refusals
      ensures ok ==> mountPoint == MountApp
      ensures if ok then refusals == old(refusals) else refusals > old(refusals)
    {
      ok := Ask();
      if !ok { return; }
      mountPoint := MountApp;
      ok := Ask();
      if !ok {
        var back := Ask();
        if back { mountPoint := MountUsb; }
      }
    }

    method InitSpiFlash() returns (ok: bool)
      requires !wlHandle && Balanced()
      modifies this`wlHandle, this`wear, this`refusals
      ensures Balanced() && ok == wlHandle
      ensures if ok then refusals == old(refusals) else refusals > old(refusals)
    {
      var found := Ask();
      if !found { return false; }
      ok := Ask();
      if ok {
        wlHandle := true;
        wear := wear.(granted := wear.granted + 1);
      }
    }

    method DeinitSpiFlash()
      requires Balanced()
      modifies this`wlHandle, this`wear
      ensures Balanced() && !wlHandle
    {
      if wlHandle {
        wear := wear.(returned := wear.returned + 1);
        wlHandle := false;
      }
    }

    method InitSpiBusOnce() returns (ok: bool)
      modifies this`spiBusInited, this`refusals
      ensures ok == spiBusInited && (old(spiBusInited) ==> spiBusInited)
      ensures if ok then refusals == old(refusals) else refusals > old(refusals)
    {
      if spiBusInited { return true; }
      ok := Ask();
      if ok { spiBusInited := true; }
    }

    /** Up to three frequencies, two tries each, until the card answers. */
    method ProbeCard() returns (initOk: bool)
      modifies this`refusals
      ensures old(refusals) <= refusals <= old(refusals) + 6
      ensures !initOk <==> refusals == old(refusals) + 6
    {
      initOk := false;
      var frequencyIndex := 0;
      while frequencyIndex < 3 && !initOk
        invariant 0 <= frequencyIndex <= 3
        invariant if initOk then old(refusals) <= refusals < old(refusals) + 6
                  else refusals == old(refusals) + 2 * frequencyIndex
      {
        var retryIndex := 0;
        while retryIndex < 2 && !initOk
          invariant 0 <= retryIndex <= 2
          invariant if initOk then old(refusals) <= refusals < old(refusals) + 6
                    else refusals == old(refusals) + 2 * frequencyIndex + retryIndex
        {
          initOk := Ask();
          retryIndex := retryIndex + 1;
        }
        frequencyIndex := frequencyIndex + 1;
      }
    }

    /** Gives back what a failed attempt had been granted. */
    method GiveBack(card: bool, hostInit: bool, spiAttached: bool)
      requires cards.Holds(if card then 1 else 0) && hosts.Holds(if hostInit then 1 else 0)
      requires devices.Holds(if spiAttached then 1 else 0)
      modifies this`cards, this`hosts, this`devices
      ensures cards.Holds(0) && hosts.Holds(0) && devices.Holds(0)
    {
      if spiAttached { devices := devices.(returned := devices.returned + 1); }
      if hostInit { hosts := hosts.(returned := hosts.returned + 1); }
      if card { cards := cards.(returned := cards.returned + 1); }
    }

    /** All of card memory, host and bus device, or none of them. */
    method InitSdMmc() returns (ok: bool)
      requires !sdCard && !sdHostInit && !sdSpiAttached && Balanced()
      modifies this`sdCard, this`sdHostInit, this`sdSpiAttached, this`spiBusInited, this`cards, this`hosts,
               this`devices, this`refusals
      ensures Balanced()
      ensures refusals >= old(refusals) && (!ok ==> refusals > old(refusals))
      ensures ok ==> sdCard && sdHostInit && sdSpiAttached
      ensures !ok ==> !sdCard && !sdHostInit && !sdSpiAttached
    {
      var hostInit, spiAttached, card := false, false, false;
      ok := InitSpiBusOnce();
      if ok {
        card := Ask();
        ok := card;
        if card { cards := cards.(granted := cards.granted + 1); }
      }
      if ok {
        hostInit := Ask();
        ok := hostInit;
        if hostInit { hosts := hosts.(granted := hosts.granted + 1); }
      }
      if ok {
        spiAttached := Ask();
        ok := spiAttached;
        if spiAttached { devices := devices.(granted := devices.granted + 1); }
      }
      if ok {
        ok := ProbeCard();
      }
      if ok {
        sdCard, sdHostInit, sdSpiAttached := true, true, true;
        return true;
      }
      GiveBack(card, hostInit, spiAttached);
    }

    method DeinitSdMmc()
      requires Balanced()
      modifies this`sdCard, this`sdHostInit, this`sdSpiAttached, this`cards, this`hosts, this`devices
      ensures Balanced() && !sdCard && !sdHostInit && !sdSpiAttached
    {
      if sdSpiAttached {
        devices := devices.(returned := devices.returned + 1);
        sdSpiAttached := false;
      }
      if sdHostInit {
        hosts := hosts.(returned := hosts.returned + 1);
        sdHostInit := false;
      }
      if sdCard {
        cards := cards.(returned := cards.returned + 1);
        sdCard := false;
      }
    }

    /** Gives back the low-level resources of one medium. */
    method Deinit(m: Media)
      requires Balanced()
      modifies this`wlHandle, this`wear, this`sdCard, this`sdHostInit, this`sdSpiAttached
      modifies this`cards, this`hosts, this`devices
      ensures Balanced()
      ensures m == SpiFlash ==>
        !wlHandle && sdCard == old(sdCard) && sdHostInit == old(sdHostInit) && sdSpiAttached == old(sdSpiAttached)
      ensures m == SdMmc ==> !sdCard && !sdHostInit && !sdSpiAttached && wlHandle == old(wlHandle)
    {
      if m == SpiFlash {
        DeinitSpiFlash();
      } else {
        DeinitSdMmc();
      }
    }

    /** The medium's resources and a storage object over them, or nothing. */
    method CreateStorage(m: Media) returns (ok: bool)
      requires Valid() && !storageCreated
      modifies this`wlHandle, this`wear, this`sdCard, this`sdHostInit, this`sdSpiAttached, this`spiBusInited,
               this`cards, this`hosts, this`devices, this`storageHandle, this`storages, this`storageCreated, this`media,
               this`refusals
      ensures Valid() && ok == storageCreated
      ensures refusals >= old(refusals) && (!ok ==> refusals > old(refusals))
      ensures ok ==> media == m
      ensures !ok ==> media == old(media)
    {
      if m == SpiFlash {
        ok := InitSpiFlash();
      } else {
        ok := InitSdMmc();
      }
      if !ok { return; }
      ok := Ask();
      if !ok {
        Deinit(m);
        return;
      }
      storageHandle := true;
      storages := storages.(granted := storages.granted + 1);
      media := m;
      storageCreated := true;
    }

    /** Drops the storage object whatever its deletion answers, and gives its medium back. */
    method DropStorage(m: Media)
      requires Valid() && storageCreated && !driverInstalled && media == m
      modifies this`wlHandle, this`wear, this`sdCard, this`sdHostInit, this`sdSpiAttached, this`cards, this`hosts,
               this`devices, this`storageHandle, this`storages, this`undeleted, this`storageCreated, this`refusals
      ensures Valid() && !storageCreated && refusals >= old(refusals)
    {
      if storageHandle {
        var deleted := Ask();
        if deleted {
          storages := storages.(returned := storages.returned + 1);
        } else {
          undeleted := undeleted + 1;
        }
        storageHandle := false;
      }
      storageCreated := false;
      Deinit(m);
    }

    /** Where the storage is mounted, as far as the driver answers. */
    method BackToUsb() returns (ok: bool)
      modifies this`mountPoint, this`refusals
      ensures refusals >= old(refusals) && (!ok ==> refusals > old(refusals))
      ensures refusals == old(refusals) ==> mountPoint == MountUsb
    {
      var answered := Ask();
      if !answered || mountPoint != MountApp { return true; }
      ok := Ask();
      if ok { mountPoint := MountUsb; }
    }

    // ---------------------------------------------------------------- bring-up and switching

    /** The callback, the mount and the driver of a storage just created. */
    method Activate() returns (ok: bool)
      requires !driverInstalled
      modifies this`mountPoint, this`driverInstalled, this`refusals
      ensures ok == driverInstalled && (ok ==> mountPoint == MountApp)
      ensures if ok then refusals == old(refusals) else refusals > old(refusals)
    {
      ok := Ask();
      if ok {
        ok := MountToApplication();
      }
      if ok {
        ok := InstallDriver();
      }
    }

    method BringUp(m: Media) returns (ret: EspErr)
      requires Valid() && !storageCreated && !driverInstalled
      modifies this
      ensures Valid() && locked == old(locked) && ret != InvalidState
      ensures ret == EspOk ==> storageCreated && driverInstalled && media == m && mountPoint == MountApp
      ensures ret != EspOk ==> !storageCreated && !driverInstalled && refusals > old(refusals)
    {
      var ok := CreateStorage(m);
      if !ok { return EspFail; }
      ok := Activate();
      if ok { return EspOk; }
      var _ := UninstallDriver();
      if storageHandle {
        var _ := BackToUsb();
      }
      DropStorage(m);
      return EspFail;
    }

    /**
     * `hal_storage_init`: refused once storage is up; otherwise all of it comes up, or a driver refused and
     * none of it does.
     */
    method Init(m: Media) returns (ret: EspErr)
      requires Valid() && !locked
      modifies this
      ensures Valid() && !locked
      ensures ret == InvalidState <==> old(storageCreated)
      ensures ret == InvalidState ==> media == old(media) && storageCreated && driverInstalled == old(driverInstalled)
      ensures ret == EspOk ==> storageCreated && driverInstalled && media == m && mountPoint == MountApp
      ensures ret == EspFail ==> !storageCreated && !driverInstalled && refusals > old(refusals)
    {
      Lock();
      if driverInstalled || storageCreated {
        ret := InvalidState;
      } else {
        ret := BringUp(m);
      }
      Unlock();
    }

    /** Deletes a live storage object once it is back at USB; on a refusal it stays as it is. */
    method DeleteStorage() returns (ok: bool)
      requires storageCreated && storageHandle && Balanced()
      modifies this`mountPoint, this`storages, this`storageHandle, this`storageCreated, this`refusals
      ensures Balanced() && storageHandle == storageCreated == !ok
      ensures refusals >= old(refusals) && (!ok ==> refusals > old(refusals))
    {
      ok := BackToUsb();
      if !ok { return; }
      ok := Ask();
      if !ok { return; }
      storages := storages.(returned := storages.returned + 1);
      storageHandle := false;
      storageCreated := false;
    }

    /** The first half of a switch: the current storage goes, or stays with its handle. */
    method ReleaseCurrent() returns (ok: bool)
      requires Valid()
      modifies this
      ensures Valid() && locked == old(locked) && media == old(media)
      ensures ok ==> !storageCreated && !driverInstalled
      ensures !ok ==> storageCreated == old(storageCreated) && old(storageCreated)
      ensures refusals >= old(refusals) && (!ok ==> refusals > old(refusals))
    {
      ok := UninstallDriver();
      if !ok { return; }
      if storageCreated && storageHandle {
        ok := DeleteStorage();
        if !ok { return; }
      }
      Deinit(media);
    }

    /** The second half of a switch: the new storage, mounted and with its driver, or nothing. */
    method StartSwitched(m: Media) returns (ok: bool)
      requires Valid() && !storageCreated && !driverInstalled
      modifies this
      ensures Valid() && locked == old(locked)
      ensures ok ==> storageCreated && driverInstalled && media == m && mountPoint == MountApp
      ensures !ok ==> !storageCreated && !driverInstalled && refusals > old(refusals)
    {
      ok := CreateStorage(m);
      if !ok { return; }
      // A callback that cannot be registered is only logged here.
      ok := MountToApplication();
      if ok {
        ok := InstallDriver();
        if !ok && storageHandle {
          var _ := BackToUsb();
        }
      }
      if !ok {
        DropStorage(m);
      }
    }

    /**
     * `hal_storage_switch`: on success the asked medium is up. On failure either the old storage is
     * still there untouched (its driver perhaps gone), or nothing is left of either medium.
     */
    method Switch(m: Media) returns (ret: EspErr)
      requires Valid() && !locked
      modifies this
      ensures Valid() && !locked && ret != InvalidState
      ensures ret == EspOk ==> storageCreated && media == m
      ensures ret == EspOk && !(old(storageCreated) && old(media) == m) ==> driverInstalled && mountPoint == MountApp
      ensures ret == EspFail ==> if storageCreated then old(storageCreated) && media == old(media) else !driverInstalled
      ensures ret == EspFail ==> refusals > old(refusals)
    {
      Lock();
      if (storageCreated || driverInstalled) && media == m {
        Unlock();
        return EspOk;
      }
      var ok := ReleaseCurrent();
      if !ok {
        Unlock();
        return EspFail;
      }
      ok := StartSwitched(m);
      Unlock();
      return if ok then EspOk else EspFail;
    }

    /** Called when USB is suspended and before photo access: mounts a live storage to the application. */
    method MountStorageToApp()
      requires Valid() && !locked
      modifies this`locked, this`mountPoint, this`refusals
      ensures Valid() && !locked
      ensures storageCreated && refusals == old(refusals) ==> mountPoint == MountApp
      ensures !storageCreated ==> mountPoint == old(mountPoint)
    {
      Lock();
      if storageCreated && storageHandle {
        var answered := Ask();
        if answered && mountPoint != MountApp {
          var mounted := Ask();
          if mounted { mountPoint := MountApp; }
        }
      }
      Unlock();
    }

    /** Any sequence of calls, with any pattern of failures inside each of them. */
    method AnyCalls(calls: seq<(nat, Media)>)
      requires Valid() && !locked
      modifies this
      ensures Valid() && !locked
    {
      for i := 0 to |calls|
        invariant Valid() && !locked
      {
        if calls[i].0 == 0 {
          var _ := Init(calls[i].1);
        } else if calls[i].0 == 1 {
          var _ := Switch(calls[i].1);
        } else {
          MountStorageToApp();
        }
      }
    }
  }
}
