/** The statuses of a job application. */
module ApplicationStatus {
  datatype Status = SAVED | APPLIED | SCREENING | ASSESSMENT | INTERVIEW | OFFER | REJECTED | WITHDRAWN
}
