/** The client's mapping from a pharmacy location result (the backend's nearby-pharmacy
    answer) to its `Pharmacy` model. Floating-point values are carried as reals; the mapping
    only copies them. */
module Pharmacies {
  import opened Wrappers

  datatype MedicineAvailability = MedicineAvailability(
    medicineName: Option<string>,
    likelyAvailable: Option<bool>,
    availabilityConfidence: Option<real>,
    estimatedStockLevel: Option<string>,
    lastUpdated: Option<string>)

  datatype PharmacyLocationResponse = PharmacyLocationResponse(
    pharmacyId: Option<int>,
    name: string,
    address: string,
    city: Option<string>,
    state: Option<string>,
    zipCode: Option<string>,
    phoneNumber: Option<string>,
    emailAddress: Option<string>,
    websiteUrl: Option<string>,
    latitude: Option<real>,
    longitude: Option<real>,
    distanceKm: Option<real>,
    travelTimeMinutes: Option<int>,
    operatingHours: Option<string>,
    emergencyHours: Option<string>,
    isOpenNow: Option<bool>,
    is24Hours: Option<bool>,
    acceptsInsurance: Option<bool>,
    hasDriveThrough: Option<bool>,
    hasDelivery: Option<bool>,
    hasConsultation: Option<bool>,
    services: Option<seq<string>>,
    chainName: Option<string>,
    managerName: Option<string>,
    pharmacistName: Option<string>,
    rating: Option<real>,
    medicineAvailability: Option<MedicineAvailability>,
    directionsUrl: Option<string>,
    placeId: Option<string>,
    responseTimestamp: Option<string>)

  datatype Pharmacy = Pharmacy(
    id: int,
    name: string,
    address: string,
    city: Option<string>,
    state: Option<string>,
    zipCode: Option<string>,
    country: Option<string>,
    phoneNumber: Option<string>,
    emailAddress: Option<string>,
    operatingHours: Option<string>,
    emergencyHours: Option<string>,
    websiteUrl: Option<string>,
    is24Hours: bool,
    acceptsInsurance: bool,
    hasDriveThrough: bool,
    hasDelivery: bool,
    hasConsultation: bool,
    services: Option<seq<string>>,
    latitude: Option<real>,
    longitude: Option<real>,
    licenseNumber: Option<string>,
    managerName: Option<string>,
    pharmacistName: Option<string>,
    chainName: Option<string>,
    rating: Option<real>,
    isActive: bool,
    createdAt: Option<string>,
    updatedAt: Option<string>,
    distance: Option<real>,
    isCurrentlyOpen: Option<bool>)

  /** `PharmacyLocationResponse.toPharmacy()`. */
  function ToPharmacy(r: PharmacyLocationResponse): (p: Pharmacy)
    ensures p.id == r.pharmacyId.GetOr(0)
    ensures p.is24Hours == r.is24Hours.GetOr(false) && p.acceptsInsurance == r.acceptsInsurance.GetOr(false)
    ensures p.hasDriveThrough == r.hasDriveThrough.GetOr(false) && p.hasDelivery == r.hasDelivery.GetOr(false)
    ensures p.hasConsultation == r.hasConsultation.GetOr(false)
    ensures p.isActive && p.country.None? && p.licenseNumber.None?
    ensures p.createdAt == r.responseTimestamp && p.updatedAt == r.responseTimestamp
    ensures p.distance == r.distanceKm && p.isCurrentlyOpen == r.isOpenNow
    ensures p.name == r.name && p.address == r.address && p.city == r.city && p.state == r.state
    ensures p.zipCode == r.zipCode && p.phoneNumber == r.phoneNumber && p.emailAddress == r.emailAddress
    ensures p.operatingHours == r.operatingHours && p.emergencyHours == r.emergencyHours
    ensures p.websiteUrl == r.websiteUrl && p.services == r.services
    ensures p.latitude == r.latitude && p.longitude == r.longitude
    ensures p.managerName == r.managerName && p.pharmacistName == r.pharmacistName
    ensures p.chainName == r.chainName && p.rating == r.rating
  {
    Pharmacy(
      r.pharmacyId.GetOr(0), r.name, r.address, r.city, r.state, r.zipCode, None,
      r.phoneNumber, r.emailAddress, r.operatingHours, r.emergencyHours, r.websiteUrl,
      r.is24Hours.GetOr(false), r.acceptsInsurance.GetOr(false), r.hasDriveThrough.GetOr(false),
      r.hasDelivery.GetOr(false), r.hasConsultation.GetOr(false),
      r.services, r.latitude, r.longitude, None,
      r.managerName, r.pharmacistName, r.chainName, r.rating,
      true, r.responseTimestamp, r.responseTimestamp, r.distanceKm, r.isOpenNow)
  }

  /** The location-only fields (travel time, availability, directions, place id) do not
      reach the model. */
  lemma LocationOnlyFieldsDropped(r: PharmacyLocationResponse, t: Option<int>, a: Option<MedicineAvailability>,
                                  d: Option<string>, place: Option<string>)
    ensures ToPharmacy(r.(travelTimeMinutes := t, medicineAvailability := a, directionsUrl := d, placeId := place)) == ToPharmacy(r)
  {
  }

  /** A missing feature flag and a false one map alike: the model cannot tell "unknown"
      from "no"; a missing id and id 0 likewise. */
  lemma MissingMeansFalse(r: PharmacyLocationResponse)
    ensures ToPharmacy(r.(is24Hours := None)) == ToPharmacy(r.(is24Hours := Some(false)))
    ensures ToPharmacy(r.(hasDelivery := None)) == ToPharmacy(r.(hasDelivery := Some(false)))
    ensures ToPharmacy(r.(pharmacyId := None)) == ToPharmacy(r.(pharmacyId := Some(0)))
  {
  }
}
