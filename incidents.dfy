/** The disaster record that the dashboard keeps in its shared `disasters`
    array, and the optional values used where the browser may hand back
    "nothing" (an empty date input, a NaN from parseFloat, an Invalid Date). */
module Incidents {

  datatype Option<T> = None | Some(value: T)

  /** One incident. `kind` is the record's `type` property (a keyword in
      Dafny); `reported` is the ISO-8601 text the record stores. */
  datatype Disaster = Disaster(
    id: string,
    lat: real,
    lng: real,
    kind: string,
    severity: string,
    title: string,
    description: string,
    location: string,
    reported: string,
    affected: int,
    status: string)

  /** The eight sample records the page starts with. */
  const Seed: seq<Disaster> := [
    Disaster("D001", 19.0760, 72.8777, "flood", "high", "Mumbai Floods",
      "Severe flooding in Mumbai metropolitan area", "Mumbai, Maharashtra",
      "2023-06-15T10:30:00", 15000, "active"),
    Disaster("D002", 28.7041, 77.1025, "fire", "medium", "Delhi Industrial Fire",
      "Fire outbreak in industrial zone", "Delhi",
      "2023-06-14T15:45:00", 500, "active"),
    Disaster("D003", 13.0827, 80.2707, "cyclone", "high", "Chennai Cyclone",
      "Cyclone approaching Chennai coastline", "Chennai, Tamil Nadu",
      "2023-06-13T08:15:00", 25000, "active"),
    Disaster("D004", 17.3850, 78.4867, "earthquake", "low", "Hyderabad Tremors",
      "Minor seismic activity detected", "Hyderabad, Telangana",
      "2023-06-12T23:10:00", 5000, "monitoring"),
    Disaster("D005", 23.0225, 72.5714, "drought", "medium", "Gujarat Drought",
      "Water scarcity affecting agricultural regions", "Gujarat",
      "2023-06-01T09:00:00", 50000, "active"),
    Disaster("D006", 22.5726, 88.3639, "flood", "medium", "Kolkata Urban Flooding",
      "Urban flooding due to heavy monsoon rainfall", "Kolkata, West Bengal",
      "2023-06-10T14:20:00", 8000, "active"),
    Disaster("D007", 12.9716, 77.5946, "fire", "low", "Bangalore Tech Park Fire",
      "Small fire at technology park, quickly contained", "Bangalore, Karnataka",
      "2023-06-16T11:05:00", 200, "resolved"),
    Disaster("D008", 26.8467, 80.9462, "heatwave", "high", "Lucknow Heatwave",
      "Extreme temperatures causing health emergencies", "Lucknow, Uttar Pradesh",
      "2023-06-05T08:30:00", 30000, "active")
  ]
}
