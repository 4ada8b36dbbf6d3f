/**
 * The device filter of `scan_and_connect`: among the peripherals one scan
 * discovered, in the order the scan reports them, the first that advertises
 * the Heart Rate Service wins.
 */
module DeviceScan {
  import opened Wrappers

  /** The Heart Rate Service UUID in its full 128-bit form and its 16-bit short form. */
  const HeartRateServiceUuid: string := "0000180d-0000-1000-8000-00805f9b34fb"
  const HeartRateServiceUuidShort: string := "180d"

  /**
   * One discovered peripheral: its address and, when its advertisement data
   * has a `service_uuids` attribute, the advertised service UUIDs.
   */
  datatype Advertisement = Advertisement(address: string, serviceUuids: Option<seq<string>>)

  /** The test of `scan_and_connect` on one device: either form of the Heart Rate Service UUID is advertised. */
  predicate AdvertisesHeartRate(adv: Advertisement)
    ensures adv.serviceUuids.None? ==> !AdvertisesHeartRate(adv)
    ensures adv.serviceUuids.Some? && HeartRateServiceUuid in adv.serviceUuids.value ==> AdvertisesHeartRate(adv)
    ensures adv.serviceUuids.Some? && HeartRateServiceUuidShort in adv.serviceUuids.value ==> AdvertisesHeartRate(adv)
    ensures AdvertisesHeartRate(adv) ==> exists u :: u in adv.serviceUuids.value && (u == HeartRateServiceUuid || u == HeartRateServiceUuidShort)
  {
    adv.serviceUuids.Some? &&
    (HeartRateServiceUuid in adv.serviceUuids.value || HeartRateServiceUuidShort in adv.serviceUuids.value)
  }

  /** The address `scan_and_connect` returns for the devices of one scan, in scan order. */
  function FirstSensorAddress(devices: seq<Advertisement>): (r: Option<string>)
    ensures r.None? <==> forall i :: 0 <= i < |devices| ==> !AdvertisesHeartRate(devices[i])
    ensures r.Some? ==>
      exists i :: (0 <= i < |devices| && devices[i].address == r.value && AdvertisesHeartRate(devices[i]) &&
                   forall j :: 0 <= j < i ==> !AdvertisesHeartRate(devices[j]))
  {
    if devices == [] then None
    else if AdvertisesHeartRate(devices[0]) then Some(devices[0].address)
    else
      var r := FirstSensorAddress(devices[1..]);
      assert forall i :: 1 <= i < |devices| ==> devices[i] == devices[1..][i - 1];
      r
  }

  /** The `for` loop with its early `return` that `scan_and_connect` runs over the scan result. */
  method SelectDevice(devices: seq<Advertisement>) returns (address: Option<string>)
    ensures address == FirstSensorAddress(devices)
  {
    for i := 0 to |devices|
      invariant FirstSensorAddress(devices) == FirstSensorAddress(devices[i..])
    {
      assert devices[i..][1..] == devices[i + 1..];
      if AdvertisesHeartRate(devices[i]) {
        return Some(devices[i].address);
      }
    }
    return None;
  }

  /** Whatever a later part of the scan reports, an earlier sensor is chosen. */
  lemma {:induction false} EarlierSensorWins(first: seq<Advertisement>, later: seq<Advertisement>)
    requires FirstSensorAddress(first).Some?
    ensures FirstSensorAddress(first + later) == FirstSensorAddress(first)
  {
    if !AdvertisesHeartRate(first[0]) {
      assert (first + later)[1..] == first[1..] + later;
      EarlierSensorWins(first[1..], later);
    }
  }
}
