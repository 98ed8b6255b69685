/** The rental table the dashboard analyses: one row per rental, with the
    three columns the delay analysis reads. A missing value (NaN in the
    source's table) is `None`. */
module Rentals {

  datatype Option<T> = None | Some(value: T)

  /** How the driver checked in: through the mobile app or with the car's
      connected box. */
  datatype CheckinType = Mobile | Connect

  /** One rental.
      - `delay`: `delay_at_checkout_in_minutes`, negative when early, absent
        when the rental was canceled or the checkout was not logged;
      - `timeDelta`: `time_delta_with_previous_rental_in_minutes`, the
        planned gap to the previous rental of the same car, absent when
        there is none;
      - `checkin`: `checkin_type`. */
  datatype Rental = Rental(delay: Option<int>, timeDelta: Option<int>, checkin: CheckinType)

  /** The table, rows in their stored order. */
  type Table = seq<Rental>
}
