/** Enumerations shared by the ticket, chat and SLA components. */
module HelpdeskTypes {
  datatype TicketStatus = Open | InProgress | WaitingOnCustomer | Resolved | Closed | Escalated

  datatype UserRole = Tenant | Owner | Agent | Admin

  datatype UserStatus = Pending | Active | Disabled

  predicate Terminal(s: TicketStatus) { s.Resolved? || s.Closed? }

  predicate Staff(r: UserRole) { r.Agent? || r.Admin? }
}
